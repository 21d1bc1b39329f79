/** http/logs/looper.hpp `push` under endless arrivals: in unsafe mode every push gets
    through, and in safe mode only others that push again and again can keep one
    waiting. */
module PushLiveness {
  import opened LogBuffer
  import opened Text
  import opened LooperModel
  import opened LooperTheorems
  import opened LooperLiveness
  import opened Fairness
  import opened ScriptedRuns

  /** A producer that wants, holds or is about to use the mutex. */
  predicate OnItsWay(p: Producer) { !p.Idle? && !p.Blocked? }

  lemma OthersLeaveProducer(s: State, turn: Turn, t: State, i: nat)
    requires Goes(s, turn, t) && !IsMine(turn, ByProducer(i)) && i < |s.producers| && OnItsWay(s.producers[i])
    ensures i < |t.producers| && t.producers[i] == s.producers[i] && t.mode == s.mode
  {
  }

  lemma {:induction false} ProducerStays(run: nat -> State, pick: nat -> Turn, i: nat, n: nat, m: nat)
    requires Run(run, pick) && n <= m && i < |run(n).producers| && OnItsWay(run(n).producers[i])
    requires forall k: nat | n <= k < m :: !IsMine(pick(k), ByProducer(i))
    ensures i < |run(m).producers| && run(m).producers[i] == run(n).producers[i] && run(m).mode == run(n).mode
    decreases m - n
  {
    if n < m {
      assert Goes(run(n), pick(n), run(n + 1));
      OthersLeaveProducer(run(n), pick(n), run(n + 1), i);
      ProducerStays(run, pick, i, n + 1, m);
    }
  }

  lemma OnItsWayCan(s: State, i: nat)
    requires Inv(s) && i < |s.producers| && OnItsWay(s.producers[i]) && s.holder.Free?
    ensures Enabled(s, ProducerStep(i))
  {
  }

  /** A producer on its way takes its next step. */
  lemma ProducerActs(run: nat -> State, pick: nat -> Turn, i: nat, n: nat) returns (m: nat)
    requires FairRun(run, pick) && i < |run(n).producers| && OnItsWay(run(n).producers[i])
    ensures n <= m && pick(m) == Some(ProducerStep(i))
    ensures i < |run(m).producers| && run(m).producers[i] == run(n).producers[i] && run(m).mode == run(n).mode
  {
    var taken;
    taken, m := NextTurn(run, pick, ByProducer(i), ProducerCan(i), n);
    if !taken {
      var k := MutexComesFree(run, pick, m);
      ProducerStays(run, pick, i, n, k);
      InvAt(run, pick, k);
      OnItsWayCan(run(k), i);
      assert false;
    }
    ProducerStays(run, pick, i, n, m);
  }

  /** Inside push and before the copy, in the mode that never waits for room. */
  predicate Bringing(s: State, i: nat, rec: Record) {
    && i < |s.producers| && s.mode == ASYNC_UNSAFE
    && (s.producers[i] == Acquiring(rec) || s.producers[i] == Testing(rec) || s.producers[i] == Appending(rec))
  }

  lemma BringingStep(s: State, i: nat, rec: Record)
    requires Bringing(s, i, rec) && !s.producers[i].Appending? && Enabled(s, ProducerStep(i))
    ensures Bringing(NextProducer(s, i), i, rec)
    ensures ProducerRank(NextProducer(s, i).producers[i]) < ProducerRank(s.producers[i])
  {
  }

  lemma AppendingStep(s: State, i: nat, rec: Record)
    requires i < |s.producers| && s.producers[i] == Appending(rec) && Enabled(s, ProducerStep(i))
    ensures NextProducer(s, i).staged == s.staged + [rec] && NextProducer(s, i).batches == s.batches
  {
  }

  lemma BringingIsOnItsWay(s: State, t: State, i: nat, rec: Record)
    requires Bringing(s, i, rec)
    ensures i < |s.producers| && OnItsWay(s.producers[i])
    ensures i < |t.producers| && t.producers[i] == s.producers[i] && t.mode == s.mode ==> Bringing(t, i, rec)
  {
  }

  lemma AppendingAt(run: nat -> State, pick: nat -> Turn, i: nat, rec: Record, m: nat)
    requires Run(run, pick) && pick(m) == Some(ProducerStep(i))
    requires i < |run(m).producers| && run(m).producers[i] == Appending(rec)
    ensures run(m + 1).staged == run(m).staged + [rec] && run(m + 1).batches == run(m).batches
  {
    assert Goes(run(m), pick(m), run(m + 1));
    AppendingStep(run(m), i, rec);
  }

  lemma BringingAt(run: nat -> State, pick: nat -> Turn, i: nat, rec: Record, m: nat)
    requires Run(run, pick) && pick(m) == Some(ProducerStep(i))
    requires Bringing(run(m), i, rec) && !run(m).producers[i].Appending?
    ensures Bringing(run(m + 1), i, rec)
    ensures ProducerRank(run(m + 1).producers[i]) < ProducerRank(run(m).producers[i])
  {
    assert Goes(run(m), pick(m), run(m + 1));
    BringingStep(run(m), i, rec);
  }

  /** In unsafe mode every push gets through, however many others push: at moment m
      the producer copies its record into the buffer. */
  lemma {:induction false} PushGetsThrough(run: nat -> State, pick: nat -> Turn, i: nat, rec: Record, n: nat)
    returns (m: nat)
    requires FairRun(run, pick) && Bringing(run(n), i, rec)
    ensures n <= m && pick(m) == Some(ProducerStep(i))
    ensures i < |run(m).producers| && run(m).producers[i] == Appending(rec)
    ensures run(m + 1).staged == run(m).staged + [rec]
    decreases ProducerRank(run(n).producers[i])
  {
    BringingIsOnItsWay(run(n), run(n), i, rec);
    m := ProducerActs(run, pick, i, n);
    BringingIsOnItsWay(run(n), run(m), i, rec);
    if run(n).producers[i].Appending? {
      AppendingAt(run, pick, i, rec, m);
    } else {
      BringingAt(run, pick, i, rec, m);
      m := PushGetsThrough(run, pick, i, rec, m + 1);
    }
  }

  lemma AppendedIsPushed(s: State, t: State, rec: Record)
    requires t.staged == s.staged + [rec] && t.batches == s.batches
    ensures Pushed(t) == Pushed(s) + [rec]
  {
    Assoc(Flat(s.batches), s.staged, [rec]);
  }

  /** From the call to the sinks: in unsafe mode, unless the consumer has exited
      when the record is copied, everything up to and including the record is
      eventually a prefix of what sink k was handed. */
  lemma PushReachesSinks(run: nat -> State, pick: nat -> Turn, i: nat, rec: Record, n: nat, k: nat)
    returns (before: nat, after: nat)
    requires FairRun(run, pick) && Bringing(run(n), i, rec) && k < |run(n).sinks|
    ensures n <= before && pick(before) == Some(ProducerStep(i)) && before < after
    ensures Pushed(run(before + 1)) == Pushed(run(before)) + [rec]
    ensures !run(before).consumer.Exited? ==>
              k < |run(after).sinks| && Flat(Pushed(run(before)) + [rec]) <= Flat(run(after).sinks[k])
  {
    before := PushGetsThrough(run, pick, i, rec, n);
    after := before + 1;
    AppendingAt(run, pick, i, rec, before);
    AppendedIsPushed(run(before), run(before + 1), rec);
    if !run(before).consumer.Exited? {
      Later(run, pick, n, before + 1);
      WhatIsAppendedArrives(run, pick, before + 1, k);
      after :| before + 1 <= after && k < |run(after).sinks|
               && Flat(Pushed(run(before + 1))) <= Flat(run(after).sinks[k]);
    }
  }

  // ------------------------------------------------- in safe mode: who waits

  /** Inside push and before the end of the copy, in either mode. */
  predicate InPush(s: State, i: nat, rec: Record) {
    && i < |s.producers|
    && (match s.producers[i]
        case Idle => false
        case Notifying => false
        case Releasing => false
        case p => p.rec == rec)
  }

  /** At moment m producer j copies a record into the buffer. */
  ghost predicate Appends(run: nat -> State, pick: nat -> Turn, m: nat, j: nat) {
    pick(m) == Some(ProducerStep(j)) && j < |run(m).producers| && run(m).producers[j].Appending?
  }

  lemma PushGoesOn(s: State, turn: Turn, t: State, i: nat, rec: Record)
    requires Goes(s, turn, t) && InPush(s, i, rec)
    requires !(turn == Some(ProducerStep(i)) && s.producers[i].Appending?)
    ensures InPush(t, i, rec)
  {
  }

  /** From n until q a push is under way, unless its record is copied before. */
  lemma {:induction false} UntilCopied(run: nat -> State, pick: nat -> Turn, i: nat, rec: Record, n: nat, q: nat)
    returns (done: bool, m: nat)
    requires Run(run, pick) && n <= q && InPush(run(n), i, rec)
    ensures done ==> n <= m < q && Appends(run, pick, m, i) && run(m).producers[i] == Appending(rec)
    ensures !done ==> InPush(run(q), i, rec)
    decreases q - n
  {
    done, m := false, n;
    if n < q {
      if pick(n) == Some(ProducerStep(i)) && run(n).producers[i].Appending? {
        done := true;
      } else {
        assert Goes(run(n), pick(n), run(n + 1));
        PushGoesOn(run(n), pick(n), run(n + 1), i, rec);
        done, m := UntilCopied(run, pick, i, rec, n + 1, q);
      }
    }
  }

  // ----------------------------------------- nobody appends: the buffer drains

  ghost predicate NoneAppends(run: nat -> State, pick: nat -> Turn, q: nat) {
    forall m: nat, j: nat :: q <= m ==> !Appends(run, pick, m, j)
  }

  ghost predicate NeverExits(run: nat -> State, q: nat) {
    forall m: nat {:trigger run(m)} :: q <= m ==> !run(m).consumer.Exited?
  }

  lemma SwapEmpties(s: State)
    requires Inv(s) && Enabled(s, ConsumerStep)
    ensures NextConsumer(s).pro == s.pro || NextConsumer(s).pro.unread == ""
  {
  }

  lemma OthersKeepBuffer(s: State, step: Step)
    requires Enabled(s, step) && step != ConsumerStep
    requires step.ProducerStep? ==> !s.producers[step.id].Appending?
    ensures Next(s, step).pro == s.pro
  {
  }

  lemma UnreadMoment(s: State, turn: Turn, t: State)
    requires Inv(s) && Goes(s, turn, t)
    requires forall j: nat | turn == Some(ProducerStep(j)) :: !s.producers[j].Appending?
    ensures t.pro.unread == s.pro.unread || t.pro.unread == ""
  {
    if turn == Some(ConsumerStep) {
      SwapEmpties(s);
    } else if turn.Some? {
      OthersKeepBuffer(s, turn.value);
    }
  }

  lemma {:induction false} UnreadStays(run: nat -> State, pick: nat -> Turn, q: nat, n: nat, m: nat)
    requires FairRun(run, pick) && NoneAppends(run, pick, q) && q <= n <= m
    ensures run(m).pro.unread == run(n).pro.unread || run(m).pro.unread == ""
    decreases m - n
  {
    if n < m {
      InvAt(run, pick, n);
      assert Goes(run(n), pick(n), run(n + 1));
      forall j: nat | pick(n) == Some(ProducerStep(j))
        ensures !run(n).producers[j].Appending?
      {
        assert !Appends(run, pick, n, j);
      }
      UnreadMoment(run(n), pick(n), run(n + 1));
      UnreadStays(run, pick, q, n + 1, m);
    }
  }

  /** Steps of the consumer until it swaps. */
  function DrainRank(c: Consumer, sinks: nat): nat {
    if c.Asleep? then 3 else RankWithData(c, sinks)
  }

  lemma StepDrains(s: State)
    requires Inv(s) && Enabled(s, ConsumerStep) && s.pro.unread != ""
    ensures var t := NextConsumer(s);
            t.pro.unread == "" || DrainRank(t.consumer, |t.sinks|) < DrainRank(s.consumer, |s.sinks|)
  {
    if !s.consumer.Swapping? {
      ConsumerMoves(s);
      RankFalls(s);
      assert !s.consumer.Dozing?;
    }
  }

  lemma StepDrainsAt(run: nat -> State, pick: nat -> Turn, i: nat)
    requires FairRun(run, pick) && pick(i) == Some(ConsumerStep) && run(i).pro.unread != ""
    ensures run(i + 1).pro.unread == ""
            || DrainRank(run(i + 1).consumer, |run(i + 1).sinks|) < DrainRank(run(i).consumer, |run(i).sinks|)
  {
    InvAt(run, pick, i);
    assert Goes(run(i), pick(i), run(i + 1));
    StepDrains(run(i));
  }

  lemma ComesToDrain(run: nat -> State, pick: nat -> Turn, q: nat, n: nat) returns (m: nat)
    requires FairRun(run, pick) && NoneAppends(run, pick, q) && q <= n
    requires run(n).pro.unread != "" && !run(n).consumer.Exited?
    ensures n <= m
    ensures run(m).pro.unread == ""
            || DrainRank(run(m).consumer, |run(m).sinks|) < DrainRank(run(n).consumer, |run(n).sinks|)
  {
    if run(n).consumer.Asleep? {
      m := SleeperWakes(run, pick, n);
    } else {
      m := ConsumerActs(run, pick, n);
      UnreadStays(run, pick, q, n, m);
      if run(m).pro.unread != "" {
        StepDrainsAt(run, pick, m);
        m := m + 1;
      }
    }
  }

  lemma {:induction false} Drains(run: nat -> State, pick: nat -> Turn, q: nat, n: nat) returns (m: nat)
    requires FairRun(run, pick) && NoneAppends(run, pick, q) && q <= n && NeverExits(run, q)
    ensures n <= m && run(m).pro.unread == ""
    decreases DrainRank(run(n).consumer, |run(n).sinks|)
  {
    m := n;
    if run(n).pro.unread != "" {
      var k := ComesToDrain(run, pick, q, n);
      m := k;
      if run(k).pro.unread != "" {
        m := Drains(run, pick, q, k);
      }
    }
  }

  // ------------------------------------- over an empty buffer a push gets through

  lemma RoomWhenDrained(s: State, len: nat)
    requires Inv(s) && s.pro.unread == "" && len <= DEFAULT_BUFFER_SIZE
    ensures s.HasRoom(len)
  {
  }

  lemma {:induction false} WatchBlocked(run: nat -> State, pick: nat -> Turn, i: nat, rec: Record, n: nat, m: nat)
    returns (j: nat)
    requires Run(run, pick) && n <= m && i < |run(n).producers| && run(n).producers[i] == Blocked(rec)
    ensures n <= j <= m && i < |run(j).producers|
    ensures run(j).producers[i] == Waking(rec) || (j == m && run(m).producers[i] == Blocked(rec))
    decreases m - n
  {
    j := n;
    if n < m {
      assert Goes(run(n), pick(n), run(n + 1));
      BlockedMoment(run(n), pick(n), run(n + 1), i);
      j := n + 1;
      if run(n + 1).producers[i].Blocked? {
        j := WatchBlocked(run, pick, i, rec, n + 1, m);
      }
    }
  }

  lemma BlockedMoment(s: State, turn: Turn, t: State, i: nat)
    requires Goes(s, turn, t) && i < |s.producers| && s.producers[i].Blocked?
    ensures i < |t.producers|
    ensures t.producers[i] == s.producers[i] || t.producers[i] == Waking(s.producers[i].rec)
  {
  }

  lemma BlockedWillWake(run: nat -> State, pick: nat -> Turn, i: nat, rec: Record, n: nat)
    requires FairRun(run, pick) && i < |run(n).producers| && run(n).producers[i] == Blocked(rec)
    requires run(n).pro.unread == "" && |rec| <= DEFAULT_BUFFER_SIZE
    ensures run(n).consumer.WakingProducers?
  {
    InvAt(run, pick, n);
    RoomWhenDrained(run(n), |rec|);
    assert ProducerInv(run(n), run(n).producers[i]);
  }

  lemma WakingWakes(s: State, i: nat)
    requires s.consumer.WakingProducers? && Enabled(s, ConsumerStep) && i < |s.producers| && s.producers[i].Blocked?
    ensures i < |NextConsumer(s).producers| && NextConsumer(s).producers[i] == Waking(s.producers[i].rec)
  {
  }

  lemma BlockedWakes(run: nat -> State, pick: nat -> Turn, i: nat, rec: Record, n: nat) returns (m: nat)
    requires FairRun(run, pick) && i < |run(n).producers| && run(n).producers[i] == Blocked(rec)
    requires run(n).pro.unread == "" && |rec| <= DEFAULT_BUFFER_SIZE
    ensures n <= m && i < |run(m).producers| && run(m).producers[i] == Waking(rec)
  {
    BlockedWillWake(run, pick, i, rec, n);
    var k := HoldingConsumerActs(run, pick, n);
    m := WatchBlocked(run, pick, i, rec, n, k);
    if run(m).producers[i].Blocked? {
      assert Goes(run(k), pick(k), run(k + 1));
      WakingWakes(run(k), i);
      m := k + 1;
    }
  }

  ghost predicate DrainedFrom(run: nat -> State, n: nat) {
    forall m: nat {:trigger run(m)} :: n <= m ==> run(m).pro.unread == ""
  }

  /** Steps of a push that finds room. */
  function PushRank(p: Producer): nat {
    match p
    case Blocked(_) => 6
    case Waking(_) => 5
    case Acquiring(_) => 5
    case Testing(_) => 4
    case Appending(_) => 3
    case Notifying => 2
    case Releasing => 1
    case _ => 0
  }

  lemma PushStep(s: State, i: nat, rec: Record)
    requires Inv(s) && s.pro.unread == "" && |rec| <= DEFAULT_BUFFER_SIZE
    requires InPush(s, i, rec) && OnItsWay(s.producers[i]) && Enabled(s, ProducerStep(i))
    ensures s.producers[i] != Appending(rec) ==>
              InPush(NextProducer(s, i), i, rec) && PushRank(NextProducer(s, i).producers[i]) < PushRank(s.producers[i])
  {
    RoomWhenDrained(s, |rec|);
    assert ProducerInv(s, s.producers[i]);
  }

  lemma PushStepAt(run: nat -> State, pick: nat -> Turn, i: nat, rec: Record, m: nat)
    requires FairRun(run, pick) && pick(m) == Some(ProducerStep(i)) && run(m).pro.unread == ""
    requires |rec| <= DEFAULT_BUFFER_SIZE && InPush(run(m), i, rec) && OnItsWay(run(m).producers[i])
    ensures run(m).producers[i] != Appending(rec) ==>
              InPush(run(m + 1), i, rec) && PushRank(run(m + 1).producers[i]) < PushRank(run(m).producers[i])
  {
    InvAt(run, pick, m);
    assert Goes(run(m), pick(m), run(m + 1));
    PushStep(run(m), i, rec);
  }

  lemma {:induction false} DrainedLetsIn(run: nat -> State, pick: nat -> Turn, i: nat, rec: Record, n: nat)
    returns (m: nat)
    requires FairRun(run, pick) && DrainedFrom(run, n) && |rec| <= DEFAULT_BUFFER_SIZE && InPush(run(n), i, rec)
    ensures n <= m && Appends(run, pick, m, i)
    decreases PushRank(run(n).producers[i])
  {
    if run(n).producers[i].Blocked? {
      var k := BlockedWakes(run, pick, i, rec, n);
      m := DrainedLetsIn(run, pick, i, rec, k);
    } else {
      m := ProducerActs(run, pick, i, n);
      if !run(n).producers[i].Appending? {
        PushStepAt(run, pick, i, rec, m);
        m := DrainedLetsIn(run, pick, i, rec, m + 1);
      }
    }
  }

  lemma SomeoneAppends(run: nat -> State, pick: nat -> Turn, i: nat, rec: Record, q: nat)
    requires FairRun(run, pick) && NeverExits(run, q) && |rec| <= DEFAULT_BUFFER_SIZE && InPush(run(q), i, rec)
    ensures !NoneAppends(run, pick, q)
  {
    if NoneAppends(run, pick, q) {
      var k := Drains(run, pick, q, q);
      forall m: nat {:trigger run(m)} | k <= m
        ensures run(m).pro.unread == ""
      {
        UnreadStays(run, pick, q, k, m);
      }
      var done, e := UntilCopied(run, pick, i, rec, q, k);
      if !done {
        var m := DrainedLetsIn(run, pick, i, rec, k);
      }
    }
  }

  /** In either mode and while the consumer lives, a push of at most 1 MiB gets
      through unless others append again and again: for every moment q either it
      is this producer that copies its record, or another one appends at or after
      q. */
  lemma PushWaitsOnlyForOthers(run: nat -> State, pick: nat -> Turn, i: nat, rec: Record, n: nat, q: nat)
    returns (m: nat, j: nat)
    requires FairRun(run, pick) && InPush(run(n), i, rec) && |rec| <= DEFAULT_BUFFER_SIZE
    requires n <= q && NeverExits(run, q)
    ensures n <= m && Appends(run, pick, m, j)
    ensures if j == i then run(m).producers[i] == Appending(rec) else q <= m
  {
    var done;
    done, m := UntilCopied(run, pick, i, rec, n, q);
    j := i;
    if !done {
      SomeoneAppends(run, pick, i, rec, q);
      m, j :| q <= m && Appends(run, pick, m, j);
      var early, k := UntilCopied(run, pick, i, rec, n, m);
      if early {
        m, j := k, i;
      }
    }
  }

  // --------------------------------------------- others can push for ever

  function Crowd(s: State): Step {
    if |s.producers| != 2 then ConsumerStep
    else if !s.producers[1].Idle? then ProducerStep(1)
    else if s.consumer.Entering? && s.pro.unread == "" then Call(1, "a")
    else if s.consumer.Entering? && !s.producers[0].Blocked? then ProducerStep(0)
    else ConsumerStep
  }

  /** A producer with a record that only fits into an empty buffer. */
  predicate Waits(p: Producer) {
    && (p.Acquiring? || p.Testing? || p.Parking? || p.Blocked? || p.Waking?)
    && |p.rec| == DEFAULT_BUFFER_SIZE
  }

  /** The states this goes round in: the second producer has always been there
      when the first one looks. */
  predicate Crowded(s: State) {
    && Inv(s) && s.mode == ASYNC_SAFE && s.stopper.Running? && |s.producers| == 2
    && Waits(s.producers[0])
    && (s.producers[0].Testing? || s.producers[0].Parking? ==> s.consumer.Entering? && s.pro.unread != "")
    && (match s.producers[1]
        case Idle =>
          && !s.consumer.Exited? && !s.consumer.Dozing? && !s.consumer.Asleep? && !s.consumer.Rousing?
          && (s.consumer.Entering?
              || (s.pro.unread != "" <==> s.consumer.ExitCheck? || s.consumer.WaitCheck? || s.consumer.Swapping?))
        case Acquiring(rec) => AtTheDoor(s) && rec == "a" && s.pro.unread == ""
        case Testing(rec) => AtTheDoor(s) && rec == "a" && s.pro.unread == ""
        case Appending(rec) => AtTheDoor(s) && rec == "a" && s.pro.unread == ""
        case Notifying => AtTheDoor(s) && s.pro.unread != ""
        case Releasing => AtTheDoor(s) && s.pro.unread != ""
        case _ => false)
  }

  predicate AtTheDoor(s: State) {
    s.consumer.Entering? && s.producers != [] && (s.producers[0].Acquiring? || s.producers[0].Waking?)
  }

  lemma CrowdCan(s: State)
    requires Crowded(s)
    ensures Enabled(s, Crowd(s))
  {
    WhoHolds(s);
  }

  lemma PusherStaysCrowded(s: State)
    requires Crowded(s) && !s.producers[1].Idle? && Enabled(s, ProducerStep(1))
    ensures Crowded(NextProducer(s, 1))
    ensures PushRank(NextProducer(s, 1).producers[1]) < PushRank(s.producers[1])
    ensures var t := NextProducer(s, 1); t.producers[1].Idle? ==> AtTheDoor(t) && t.pro.unread != ""
  {
    ProducerKeepsInv(s, 1);
    if s.producers[1].Testing? {
      RoomWhenDrained(s, 1);
    }
  }

  /** Steps of a waiting producer until it blocks again. */
  function TryRank(p: Producer): nat {
    match p
    case Acquiring(_) => 3
    case Waking(_) => 3
    case Testing(_) => 2
    case Parking(_) => 1
    case _ => 0
  }

  lemma WaiterStaysCrowded(s: State)
    requires Crowded(s) && Crowd(s) == ProducerStep(0) && Enabled(s, ProducerStep(0))
    ensures Crowded(NextProducer(s, 0))
    ensures var t := NextProducer(s, 0);
            TryRank(t.producers[0]) < TryRank(s.producers[0]) && t.producers[1].Idle? && t.pro == s.pro
            && t.consumer == s.consumer && (t.producers[0].Blocked? <==> TryRank(t.producers[0]) == 0)
  {
    ProducerKeepsInv(s, 0);
    assert s.producers[0].Testing? ==> !s.HasRoom(|s.producers[0].rec|);
  }

  lemma ConsumerStaysCrowded(s: State)
    requires Crowded(s) && Crowd(s) == ConsumerStep && Enabled(s, ConsumerStep)
    ensures Crowded(NextConsumer(s)) && Advances(s, NextConsumer(s))
    ensures NextConsumer(s).producers[1].Idle?
    ensures NextConsumer(s).pro.unread != "" ==> !NextConsumer(s).consumer.Entering?
  {
    StepKeepsInv(s, ConsumerStep);
    ConsumerAdvances(s);
    if !s.consumer.Swapping? {
      ConsumerMoves(s);
    }
  }

  lemma CallStaysCrowded(s: State)
    requires Crowded(s) && Crowd(s).Call?
    ensures Crowded(Next(s, Crowd(s))) && Next(s, Crowd(s)).producers[1].Acquiring?
  {
    StepKeepsInv(s, Crowd(s));
  }

  /** Steps until the consumer moves. */
  function CrowdToConsumer(s: State): nat {
    if |s.producers| != 2 then 0
    else if !s.producers[1].Idle? then PushRank(s.producers[1]) + 4
    else if !s.consumer.Entering? then 0
    else if s.pro.unread == "" then 20
    else TryRank(s.producers[0])
  }

  /** Stages until the second producer moves. */
  function CrowdToPusher(s: State): nat {
    if |s.producers| != 2 || !s.producers[1].Idle? then 0
    else if s.pro.unread == "" then 1
    else if s.consumer.Entering? && !s.producers[0].Blocked? then 3
    else 2
  }

  function PusherMinor(s: State): nat {
    if CrowdToPusher(s) == 3 then TryRank(s.producers[0]) else ConsumerRank(s)
  }

  /** Stages until the first producer moves. */
  function CrowdToWaiter(s: State): nat {
    if |s.producers| != 2 || !s.producers[1].Idle? then 0
    else if s.pro.unread == "" then 1
    else if s.consumer.Entering? && !s.producers[0].Blocked? then 0
    else 2
  }

  function WaiterMinor(s: State): nat {
    if |s.producers| == 2 && CrowdToWaiter(s) == 0 then PushRank(s.producers[1]) else ConsumerRank(s)
  }

  predicate Falls(major: nat, minor: nat, major': nat, minor': nat) {
    major' < major || (major' == major && minor' < minor)
  }

  lemma CrowdStep(s: State)
    requires Crowded(s)
    ensures Enabled(s, Crowd(s)) && Crowded(Next(s, Crowd(s)))
    ensures var t := Next(s, Crowd(s));
            && (Crowd(s) != ConsumerStep ==> CrowdToConsumer(t) < CrowdToConsumer(s))
            && (Crowd(s) != ProducerStep(1) ==>
                  Falls(CrowdToPusher(s), PusherMinor(s), CrowdToPusher(t), PusherMinor(t)))
            && (Crowd(s) != ProducerStep(0) ==>
                  Falls(CrowdToWaiter(s), WaiterMinor(s), CrowdToWaiter(t), WaiterMinor(t)))
  {
    CrowdCan(s);
    if !s.producers[1].Idle? {
      PusherStaysCrowded(s);
    } else if Crowd(s) == ProducerStep(0) {
      WaiterStaysCrowded(s);
    } else if Crowd(s) == ConsumerStep {
      ConsumerStaysCrowded(s);
    } else {
      CallStaysCrowded(s);
    }
  }

  lemma CrowdRounds()
    ensures Rounds(Crowd, Crowded)
  {
    forall s: State {:trigger Crowd(s)} | Crowded(s)
      ensures Enabled(s, Crowd(s)) && Crowded(Next(s, Crowd(s)))
    {
      CrowdStep(s);
    }
  }

  lemma TowardConsumer()
    ensures Toward(Crowd, Crowded, ConsumerStep, CrowdToConsumer, ConsumerRank)
  {
    forall s: State {:trigger Crowd(s)} | Crowded(s) && Crowd(s) != ConsumerStep && Enabled(s, Crowd(s))
      ensures CrowdToConsumer(Next(s, Crowd(s))) < CrowdToConsumer(s)
    {
      CrowdStep(s);
    }
  }

  lemma TowardPusher()
    ensures Toward(Crowd, Crowded, ProducerStep(1), CrowdToPusher, PusherMinor)
  {
    forall s: State {:trigger Crowd(s)} | Crowded(s) && Crowd(s) != ProducerStep(1) && Enabled(s, Crowd(s))
      ensures var t := Next(s, Crowd(s)); Falls(CrowdToPusher(s), PusherMinor(s), CrowdToPusher(t), PusherMinor(t))
    {
      CrowdStep(s);
    }
  }

  lemma TowardWaiter()
    ensures Toward(Crowd, Crowded, ProducerStep(0), CrowdToWaiter, WaiterMinor)
  {
    forall s: State {:trigger Crowd(s)} | Crowded(s) && Crowd(s) != ProducerStep(0) && Enabled(s, Crowd(s))
      ensures var t := Next(s, Crowd(s)); Falls(CrowdToWaiter(s), WaiterMinor(s), CrowdToWaiter(t), WaiterMinor(t))
    {
      CrowdStep(s);
    }
  }

  lemma CrowdIsFairTo(run: nat -> State, pick: nat -> Turn, i: nat)
    requires Follows(Crowd, run, pick) && Crowded(run(0))
    ensures Fair(run, pick, ByProducer(i), ProducerCan(i))
  {
    CrowdRounds();
    if i == 0 {
      TowardWaiter();
      FairToTaken(Crowd, Crowded, run, pick, ProducerStep(0), CrowdToWaiter, WaiterMinor,
                  ByProducer(0), ProducerCan(0));
    } else if i == 1 {
      TowardPusher();
      FairToTaken(Crowd, Crowded, run, pick, ProducerStep(1), CrowdToPusher, PusherMinor,
                  ByProducer(1), ProducerCan(1));
    } else {
      FairToResting(Crowd, Crowded, run, pick, ByProducer(i), ProducerCan(i));
    }
  }

  lemma CrowdIsFair(run: nat -> State, pick: nat -> Turn)
    requires Follows(Crowd, run, pick) && Crowded(run(0)) && Reachable(run(0))
    ensures FairRun(run, pick)
  {
    CrowdRounds();
    TowardConsumer();
    FollowingGoes(Crowd, Crowded, run, pick);
    FairToTaken(Crowd, Crowded, run, pick, ConsumerStep, CrowdToConsumer, ConsumerRank, ByConsumer(), ConsumerCan());
    forall i: nat
      ensures Fair(run, pick, ByProducer(i), ProducerCan(i))
    {
      CrowdIsFairTo(run, pick, i);
    }
  }

  lemma NeverCopied(run: nat -> State, pick: nat -> Turn, rec: Record, m: nat)
    requires Follows(Crowd, run, pick) && Crowded(run(0)) && run(0).producers[0] == Acquiring(rec)
    ensures InPush(run(m), 0, rec) && !run(m).producers[0].Appending?
  {
    CrowdRounds();
    FollowingGoes(Crowd, Crowded, run, pick);
    var done, k := UntilCopied(run, pick, 0, rec, 0, m);
    InRound(Crowd, Crowded, run, pick, if done then k else m);
  }

  lemma StartsCrowded(s: State, rec: Record) returns (t: State)
    requires Init(s) && s.mode == ASYNC_SAFE && |s.producers| == 2 && |rec| == DEFAULT_BUFFER_SIZE
    ensures Legal(s, [Call(0, rec)]) && t == Exec(s, [Call(0, rec)])
    ensures Crowded(t) && t.producers[0] == Acquiring(rec)
  {
    InitInv(s);
    StepKeepsInv(s, Call(0, rec));
    t := Next(s, Call(0, rec));
    assert [Call(0, rec)][1..] == [];
  }

  /** And others can keep it waiting for good, on a fair run with a living
      consumer: a producer whose record fits only into an empty buffer finds one
      byte of another producer there each time. */
  lemma SafePushStarves(s: State, rec: Record) returns (run: nat -> State, pick: nat -> Turn)
    requires Init(s) && s.mode == ASYNC_SAFE && |s.producers| == 2 && |rec| == DEFAULT_BUFFER_SIZE
    ensures Legal(s, [Call(0, rec)]) && run(0) == Exec(s, [Call(0, rec)])
    ensures FairRun(run, pick) && NeverExits(run, 0)
    ensures forall m: nat :: InPush(run(m), 0, rec) && !run(m).producers[0].Appending?
  {
    var t := StartsCrowded(s, rec);
    run, pick := Scripted(Crowd, t);
    CrowdIsFair(run, pick);
    CrowdRounds();
    forall m: nat
      ensures InPush(run(m), 0, rec) && !run(m).producers[0].Appending? && !run(m).consumer.Exited?
    {
      NeverCopied(run, pick, rec, m);
      InRound(Crowd, Crowded, run, pick, m);
    }
  }
}
