/** http/ThreadPool.hpp under endless arrivals: on every fair infinite run each
    queued task is taken and served, whatever else is pushed meanwhile. */
module PoolLiveness {
  import opened Text
  import opened Counting
  import opened ThreadPool
  import opened Fairness

  type Turn = Option<Step>

  /** One moment: a thread moves, or nobody does. */
  predicate Goes(s: State, turn: Turn, t: State) {
    match turn
    case None => t == s
    case Some(step) => Enabled(s, step) && t == Next(s, step)
  }

  ghost predicate Run(run: nat -> State, pick: nat -> Turn) {
    forall n: nat {:trigger pick(n)} :: Goes(run(n), pick(n), run(n + 1))
  }

  function ByWorker(w: nat): Step -> bool { (step: Step) => step == WorkerStep(w) }

  function ByPusher(p: nat): Step -> bool { (step: Step) => step.PusherStep? && step.p == p }

  function WorkerCan(w: nat): State -> bool { (s: State) => Enabled(s, WorkerStep(w)) }

  /** A pusher can move, whichever worker its signal then reaches. */
  function PusherCan(p: nat): State -> bool {
    (s: State) => p < |s.pushers| && !s.pushers[p].Idle? && (s.pushers[p].Acquiring? ==> s.holder.Free?)
  }

  ghost predicate Reachable(t: State) {
    exists s: State, steps: seq<Step> :: Init(s) && Legal(s, steps) && Exec(s, steps) == t
  }

  /** From a reachable state on, the scheduler and the mutex starve nobody. */
  ghost predicate FairRun(run: nat -> State, pick: nat -> Turn) {
    && Reachable(run(0)) && Run(run, pick)
    && (forall w: nat :: Fair(run, pick, ByWorker(w), WorkerCan(w)))
    && (forall p: nat :: Fair(run, pick, ByPusher(p), PusherCan(p)))
  }

  lemma OneMomentGrows(s: State, turn: Turn, t: State)
    requires Goes(s, turn, t)
    ensures |t.workers| == |s.workers| && |t.pushers| == |s.pushers| && s.popped <= t.popped && s.pushed <= t.pushed
    ensures s.served <= t.served
  {
  }

  lemma OneMoment(s: State, turn: Turn, t: State)
    requires Goes(s, turn, t) && Inv(s)
    ensures Inv(t)
  {
    if turn.Some? {
      StepKeepsInv(s, turn.value);
    }
  }

  lemma {:induction false} Later(run: nat -> State, pick: nat -> Turn, n: nat, m: nat)
    requires Run(run, pick) && n <= m
    ensures |run(m).workers| == |run(n).workers| && |run(m).pushers| == |run(n).pushers|
    ensures run(n).popped <= run(m).popped && run(n).pushed <= run(m).pushed && run(n).served <= run(m).served
    decreases m - n
  {
    if n < m {
      assert Goes(run(n), pick(n), run(n + 1));
      OneMomentGrows(run(n), pick(n), run(n + 1));
      Later(run, pick, n + 1, m);
    }
  }

  lemma ReachableInv(t: State)
    requires Reachable(t)
    ensures Inv(t)
  {
    var s: State, steps: seq<Step> :| Init(s) && Legal(s, steps) && Exec(s, steps) == t;
    InitInv(s);
    RunKeepsInv(s, steps);
  }

  lemma {:induction false} InvAt(run: nat -> State, pick: nat -> Turn, n: nat)
    requires Run(run, pick) && Reachable(run(0))
    ensures Inv(run(n))
  {
    if n == 0 {
      ReachableInv(run(0));
    } else {
      var m: nat := n - 1;
      InvAt(run, pick, m);
      assert Goes(run(m), pick(m), run(m + 1));
      OneMoment(run(m), pick(m), run(n));
    }
  }

  // ------------------------------------------------- what others leave alone

  lemma OthersLeaveWorker(s: State, turn: Turn, t: State, w: nat)
    requires Goes(s, turn, t) && !IsMine(turn, ByWorker(w)) && w < |s.workers| && !s.workers[w].Blocked?
    ensures w < |t.workers| && t.workers[w] == s.workers[w]
  {
  }

  lemma {:induction false} WorkerStays(run: nat -> State, pick: nat -> Turn, w: nat, n: nat, m: nat)
    requires Run(run, pick) && n <= m && w < |run(n).workers| && !run(n).workers[w].Blocked?
    requires forall k: nat | n <= k < m :: !IsMine(pick(k), ByWorker(w))
    ensures w < |run(m).workers| && run(m).workers[w] == run(n).workers[w]
    decreases m - n
  {
    if n < m {
      assert Goes(run(n), pick(n), run(n + 1));
      OthersLeaveWorker(run(n), pick(n), run(n + 1), w);
      WorkerStays(run, pick, w, n + 1, m);
    }
  }

  lemma OthersLeavePusher(s: State, turn: Turn, t: State, p: nat)
    requires Goes(s, turn, t) && !IsMine(turn, ByPusher(p)) && p < |s.pushers| && !s.pushers[p].Idle?
    ensures p < |t.pushers| && t.pushers[p] == s.pushers[p]
  {
  }

  lemma {:induction false} PusherStays(run: nat -> State, pick: nat -> Turn, p: nat, n: nat, m: nat)
    requires Run(run, pick) && n <= m && p < |run(n).pushers| && !run(n).pushers[p].Idle?
    requires forall k: nat | n <= k < m :: !IsMine(pick(k), ByPusher(p))
    ensures p < |run(m).pushers| && run(m).pushers[p] == run(n).pushers[p]
    decreases m - n
  {
    if n < m {
      assert Goes(run(n), pick(n), run(n + 1));
      OthersLeavePusher(run(n), pick(n), run(n + 1), p);
      PusherStays(run, pick, p, n + 1, m);
    }
  }

  // -------------------------------------------------------------- the mutex

  /** A pusher that does not wait for the mutex takes its next step. */
  lemma PusherActs(run: nat -> State, pick: nat -> Turn, p: nat, n: nat) returns (m: nat)
    requires FairRun(run, pick) && p < |run(n).pushers|
    requires !run(n).pushers[p].Idle? && !run(n).pushers[p].Acquiring?
    ensures n <= m && IsMine(pick(m), ByPusher(p))
    ensures p < |run(m).pushers| && run(m).pushers[p] == run(n).pushers[p]
  {
    var taken;
    taken, m := NextTurn(run, pick, ByPusher(p), PusherCan(p), n);
    PusherStays(run, pick, p, n, m);
    if !taken {
      assert false;
    }
  }

  lemma HolderCan(s: State, w: nat)
    requires Inv(s) && w < |s.workers| && WorkerHolds(s.workers[w])
    ensures Enabled(s, WorkerStep(w))
  {
  }

  /** A worker that holds the mutex takes its next step. */
  lemma HolderActs(run: nat -> State, pick: nat -> Turn, w: nat, n: nat) returns (m: nat)
    requires FairRun(run, pick) && w < |run(n).workers| && WorkerHolds(run(n).workers[w])
    ensures n <= m && pick(m) == Some(WorkerStep(w))
    ensures w < |run(m).workers| && run(m).workers[w] == run(n).workers[w]
  {
    var taken;
    taken, m := NextTurn(run, pick, ByWorker(w), WorkerCan(w), n);
    WorkerStays(run, pick, w, n, m);
    if !taken {
      InvAt(run, pick, m);
      HolderCan(run(m), w);
      assert false;
    }
  }

  /** Steps until whoever holds the mutex gives it back. */
  function HoldRank(s: State): nat {
    match s.holder
    case Free => 0
    case HeldByWorker(w) =>
      if w < |s.workers| then
        match s.workers[w]
        case Testing => 3
        case Popping => 2
        case _ => 1
      else 0
    case HeldByPusher(p) => if p < |s.pushers| && s.pushers[p].Enqueuing? then 2 else 1
  }

  lemma WhoHoldsAt(run: nat -> State, pick: nat -> Turn, n: nat)
    requires FairRun(run, pick)
    ensures forall w | 0 <= w < |run(n).workers| && WorkerHolds(run(n).workers[w]) :: run(n).holder == HeldByWorker(w)
    ensures forall p | 0 <= p < |run(n).pushers| && PusherHolds(run(n).pushers[p]) :: run(n).holder == HeldByPusher(p)
    ensures run(n).holder.HeldByWorker? ==>
              run(n).holder.w < |run(n).workers| && WorkerHolds(run(n).workers[run(n).holder.w])
    ensures run(n).holder.HeldByPusher? ==>
              run(n).holder.p < |run(n).pushers| && PusherHolds(run(n).pushers[run(n).holder.p])
  {
    InvAt(run, pick, n);
  }

  lemma WorkerStepFrees(s: State, w: nat)
    requires Enabled(s, WorkerStep(w)) && WorkerHolds(s.workers[w]) && s.holder == HeldByWorker(w)
    ensures HoldRank(NextWorker(s, w)) < HoldRank(s)
  {
  }

  lemma PusherStepFrees(s: State, p: nat, woken: nat)
    requires Enabled(s, PusherStep(p, woken)) && PusherHolds(s.pushers[p]) && s.holder == HeldByPusher(p)
    ensures HoldRank(NextPusher(s, p, woken)) < HoldRank(s)
  {
  }

  lemma WorkerFrees(run: nat -> State, pick: nat -> Turn, w: nat, n: nat) returns (m: nat)
    requires FairRun(run, pick) && run(n).holder == HeldByWorker(w)
    ensures n < m && HoldRank(run(m)) < HoldRank(run(n))
  {
    WhoHoldsAt(run, pick, n);
    var k := HolderActs(run, pick, w, n);
    WhoHoldsAt(run, pick, k);
    assert Goes(run(k), pick(k), run(k + 1));
    WorkerStepFrees(run(k), w);
    m := k + 1;
  }

  lemma PusherFrees(run: nat -> State, pick: nat -> Turn, p: nat, n: nat) returns (m: nat)
    requires FairRun(run, pick) && run(n).holder == HeldByPusher(p)
    ensures n < m && HoldRank(run(m)) < HoldRank(run(n))
  {
    WhoHoldsAt(run, pick, n);
    var k := PusherActs(run, pick, p, n);
    WhoHoldsAt(run, pick, k);
    assert Goes(run(k), pick(k), run(k + 1));
    PusherStepFrees(run(k), p, pick(k).value.woken);
    m := k + 1;
  }

  /** The mutex is given back again and again. */
  lemma {:induction false} MutexComesFree(run: nat -> State, pick: nat -> Turn, n: nat) returns (m: nat)
    requires FairRun(run, pick)
    ensures n <= m && run(m).holder.Free?
    decreases HoldRank(run(n))
  {
    match run(n).holder
    case Free => m := n;
    case HeldByWorker(w) =>
      var k := WorkerFrees(run, pick, w, n);
      m := MutexComesFree(run, pick, k);
    case HeldByPusher(p) =>
      var k := PusherFrees(run, pick, p, n);
      m := MutexComesFree(run, pick, k);
  }

  // -------------------------------------------------------------- the workers

  lemma AwakeCan(s: State, w: nat)
    requires Inv(s) && w < |s.workers| && !s.workers[w].Blocked? && s.holder.Free?
    ensures Enabled(s, WorkerStep(w))
  {
  }

  /** A worker that is not blocked takes its next step. */
  lemma WorkerActs(run: nat -> State, pick: nat -> Turn, w: nat, n: nat) returns (m: nat)
    requires FairRun(run, pick) && w < |run(n).workers| && !run(n).workers[w].Blocked?
    ensures n <= m && pick(m) == Some(WorkerStep(w))
    ensures w < |run(m).workers| && run(m).workers[w] == run(n).workers[w]
  {
    var taken;
    taken, m := NextTurn(run, pick, ByWorker(w), WorkerCan(w), n);
    if !taken {
      var k := MutexComesFree(run, pick, m);
      WorkerStays(run, pick, w, n, k);
      InvAt(run, pick, k);
      AwakeCan(run(k), w);
      assert false;
    }
    WorkerStays(run, pick, w, n, m);
  }

  /** While fewer than len tasks were popped of at least len pushed, some wait. */
  predicate Waiting(s: State, len: nat) { |s.popped| < len <= |s.pushed| }

  /** A worker on its way to the queue. */
  predicate Coming(s: State, w: nat) {
    w < |s.workers| && !s.workers[w].Blocked? && !s.workers[w].Parking?
  }

  lemma NoneParks(s: State, len: nat)
    requires Inv(s) && Waiting(s, len)
    ensures s.queue != [] && forall w | 0 <= w < |s.workers| :: !s.workers[w].Parking?
  {
  }

  lemma ComingStep(s: State, w: nat, len: nat)
    requires Inv(s) && Waiting(s, len) && Coming(s, w) && Enabled(s, WorkerStep(w))
    ensures var t := NextWorker(s, w);
            |t.popped| == |s.popped| + 1
            || (t.popped == s.popped && Coming(t, w) && WorkerRank(t.workers[w]) < WorkerRank(s.workers[w]))
  {
    NoneParks(s, len);
  }

  /** A worker on its way pops, unless another one does before. */
  lemma {:induction false} ComingPops(run: nat -> State, pick: nat -> Turn, w: nat, len: nat, n: nat) returns (m: nat)
    requires FairRun(run, pick) && Waiting(run(n), len) && Coming(run(n), w)
    ensures n < m && |run(m).popped| > |run(n).popped|
    decreases WorkerRank(run(n).workers[w])
  {
    var k := WorkerActs(run, pick, w, n);
    Later(run, pick, n, k);
    if |run(k).popped| > |run(n).popped| {
      m := k;
    } else {
      InvAt(run, pick, k);
      assert Goes(run(k), pick(k), run(k + 1));
      Later(run, pick, k, k + 1);
      ComingStep(run(k), w, len);
      m := k + 1;
      if |run(k + 1).popped| == |run(n).popped| {
        m := ComingPops(run, pick, w, len, k + 1);
      }
    }
  }

  // ------------------------------------------------------------- the wake-up

  lemma {:induction false} SomePending(ps: seq<Pusher>) returns (p: nat)
    requires Total(ps, PendingSignal) > 0
    ensures p < |ps| && (ps[p].Releasing? || ps[p].Signalling?)
  {
    if PendingSignal(ps[0]) > 0 {
      p := 0;
    } else {
      p := SomePending(ps[1..]);
      p := p + 1;
    }
  }

  /** When all workers are blocked and a task waits, a signal is still to come. */
  lemma SignalPending(s: State, len: nat) returns (p: nat)
    requires Inv(s) && Waiting(s, len) && |s.workers| > 0
    requires forall w | 0 <= w < |s.workers| :: s.workers[w].Blocked?
    ensures p < |s.pushers| && (s.pushers[p].Releasing? || s.pushers[p].Signalling?)
  {
    NoneParks(s, len);
    assert s.workers[0].Blocked? && SomeBlocked(s);
    TotalZero(s.workers, AboutToTest);
    p := SomePending(s.pushers);
  }

  lemma SignalReaches(s: State, p: nat, woken: nat)
    requires Enabled(s, PusherStep(p, woken)) && s.pushers[p].Signalling? && |s.workers| > 0
    ensures exists w :: 0 <= w < |s.workers| && w < |NextPusher(s, p, woken).workers|
                        && !NextPusher(s, p, woken).workers[w].Blocked?
  {
    var t := NextPusher(s, p, woken);
    if SomeBlocked(s) {
      assert t.workers[woken] == Waking;
    } else {
      assert !t.workers[0].Blocked?;
    }
  }

  /** A pending signal leaves some worker awake. */
  lemma SignalComes(run: nat -> State, pick: nat -> Turn, p: nat, n: nat) returns (m: nat, w: nat)
    requires FairRun(run, pick) && |run(n).workers| > 0 && p < |run(n).pushers| && run(n).pushers[p].Signalling?
    ensures n < m && w < |run(m).workers| && !run(m).workers[w].Blocked?
  {
    var k := PusherActs(run, pick, p, n);
    Later(run, pick, n, k);
    assert Goes(run(k), pick(k), run(k + 1));
    SignalReaches(run(k), p, pick(k).value.woken);
    m := k + 1;
    w :| 0 <= w < |run(m).workers| && !run(m).workers[w].Blocked?;
  }

  lemma ReleaseSignals(run: nat -> State, pick: nat -> Turn, p: nat, n: nat) returns (m: nat)
    requires FairRun(run, pick) && p < |run(n).pushers| && run(n).pushers[p].Releasing?
    ensures n < m && p < |run(m).pushers| && run(m).pushers[p].Signalling?
  {
    var k := PusherActs(run, pick, p, n);
    assert Goes(run(k), pick(k), run(k + 1));
    m := k + 1;
  }

  lemma SomeoneWakes(run: nat -> State, pick: nat -> Turn, len: nat, n: nat) returns (m: nat, w: nat)
    requires FairRun(run, pick) && |run(n).workers| > 0 && Waiting(run(n), len)
    ensures n <= m && w < |run(m).workers| && !run(m).workers[w].Blocked?
  {
    if w0 :| 0 <= w0 < |run(n).workers| && !run(n).workers[w0].Blocked? {
      m, w := n, w0;
    } else {
      InvAt(run, pick, n);
      var p := SignalPending(run(n), len);
      var k := n;
      if run(n).pushers[p].Releasing? {
        k := ReleaseSignals(run, pick, p, n);
      }
      Later(run, pick, n, k);
      m, w := SignalComes(run, pick, p, k);
    }
  }

  lemma NoneParksAt(run: nat -> State, pick: nat -> Turn, len: nat, n: nat)
    requires FairRun(run, pick) && Waiting(run(n), len)
    ensures forall w | 0 <= w < |run(n).workers| :: !run(n).workers[w].Parking?
  {
    InvAt(run, pick, n);
    NoneParks(run(n), len);
  }

  /** A waiting task brings about the next pop. */
  lemma NextPop(run: nat -> State, pick: nat -> Turn, len: nat, n: nat) returns (m: nat)
    requires FairRun(run, pick) && |run(n).workers| > 0 && Waiting(run(n), len)
    ensures n < m && |run(m).popped| > |run(n).popped|
  {
    var k, w := SomeoneWakes(run, pick, len, n);
    Later(run, pick, n, k);
    if |run(k).popped| > |run(n).popped| {
      m := k;
    } else {
      NoneParksAt(run, pick, len, k);
      m := ComingPops(run, pick, w, len, k);
    }
  }

  lemma {:induction false} PopsArrive(run: nat -> State, pick: nat -> Turn, len: nat, n: nat) returns (m: nat)
    requires FairRun(run, pick) && |run(n).workers| > 0 && len <= |run(n).pushed|
    ensures n <= m && len <= |run(m).popped|
    decreases len - |run(n).popped|
  {
    if len <= |run(n).popped| {
      m := n;
    } else {
      var k := NextPop(run, pick, len, n);
      Later(run, pick, n, k);
      m := PopsArrive(run, pick, len, k);
    }
  }

  /** Liveness under endless arrivals: with a worker, every task pushed by any
      moment of a fair run is eventually taken, in the order of the pushes. */
  lemma WhatIsPushedIsTaken(run: nat -> State, pick: nat -> Turn, n: nat)
    requires FairRun(run, pick) && |run(n).workers| > 0
    ensures exists m: nat :: n <= m && run(n).pushed <= run(m).popped
  {
    var m := PopsArrive(run, pick, |run(n).pushed|, n);
    Later(run, pick, n, m);
    InvAt(run, pick, m);
    assert run(m).popped == run(m).pushed[..|run(m).popped|];
    assert run(n).pushed == run(m).pushed[..|run(n).pushed|];
  }

  /** A task a worker has taken is eventually served by that worker: at moment m it
      takes its step out of processing this task. */
  lemma {:induction false} WhatIsTakenIsServed(run: nat -> State, pick: nat -> Turn, n: nat, w: nat) returns (m: nat)
    requires FairRun(run, pick) && w < |run(n).workers|
    requires run(n).workers[w].Unlocking? || run(n).workers[w].Processing?
    ensures n <= m && pick(m) == Some(WorkerStep(w))
    ensures w < |run(m).workers| && run(m).workers[w] == Processing(run(n).workers[w].task)
    ensures run(m + 1).served == run(m).served + [run(n).workers[w].task]
    decreases WorkerRank(run(n).workers[w])
  {
    m := WorkerActs(run, pick, w, n);
    assert Goes(run(m), pick(m), run(m + 1));
    if run(n).workers[w].Unlocking? {
      m := WhatIsTakenIsServed(run, pick, m + 1, w);
    }
  }

  // ------------------------------------------------------ each task is served

  lemma {:induction false} CountGrows(a: seq<Task>, b: seq<Task>, x: Task)
    requires a <= b
    ensures Count(a, x) <= Count(b, x)
    decreases |b|
  {
    if |a| < |b| {
      CountGrows(a, b[..|b| - 1], x);
    } else {
      assert a == b;
    }
  }

  lemma {:induction false} HolderOf(ws: seq<Worker>, x: Task) returns (w: nat)
    requires InHand(ws, x) > 0
    ensures w < |ws| && (ws[w].Unlocking? || ws[w].Processing?) && ws[w].task == x
  {
    if Holds(ws[0], x) > 0 {
      w := 0;
    } else {
      w := HolderOf(ws[1..], x);
      w := w + 1;
    }
  }

  lemma AccountedAt(run: nat -> State, pick: nat -> Turn, n: nat, x: Task)
    requires FairRun(run, pick)
    ensures Count(run(n).popped, x) == Count(run(n).served, x) + InHand(run(n).workers, x)
  {
    InvAt(run, pick, n);
    assert Accounted(run(n).popped, run(n).served, run(n).workers, x);
  }

  /** One more serving of x. */
  lemma NextServing(run: nat -> State, pick: nat -> Turn, x: Task, n: nat) returns (m: nat)
    requires FairRun(run, pick) && Count(run(n).served, x) < Count(run(n).popped, x)
    ensures n <= m && Count(run(m).served, x) > Count(run(n).served, x)
  {
    AccountedAt(run, pick, n, x);
    var w := HolderOf(run(n).workers, x);
    var k := WhatIsTakenIsServed(run, pick, n, w);
    Later(run, pick, n, k);
    CountGrows(run(n).served, run(k).served, x);
    CountSnoc(run(k).served, x, x);
    m := k + 1;
  }

  lemma {:induction false} ServingsArrive(run: nat -> State, pick: nat -> Turn, x: Task, k: nat, n: nat) returns (m: nat)
    requires FairRun(run, pick) && k <= Count(run(n).popped, x)
    ensures n <= m && k <= Count(run(m).served, x)
    decreases k - Count(run(n).served, x)
  {
    if k <= Count(run(n).served, x) {
      m := n;
    } else {
      var i := NextServing(run, pick, x, n);
      Later(run, pick, n, i);
      CountGrows(run(n).popped, run(i).popped, x);
      m := ServingsArrive(run, pick, x, k, i);
    }
  }

  lemma {:induction false} AllServingsArrive(run: nat -> State, pick: nat -> Turn, tasks: seq<Task>, xs: seq<Task>, n: nat)
    returns (m: nat)
    requires FairRun(run, pick) && tasks <= run(n).popped
    ensures n <= m && forall i | 0 <= i < |xs| :: Count(tasks, xs[i]) <= Count(run(m).served, xs[i])
    decreases xs
  {
    m := n;
    if xs != [] {
      CountGrows(tasks, run(n).popped, xs[0]);
      var k := ServingsArrive(run, pick, xs[0], Count(tasks, xs[0]), n);
      Later(run, pick, n, k);
      m := AllServingsArrive(run, pick, tasks, xs[1..], k);
      Later(run, pick, k, m);
      CountGrows(run(k).served, run(m).served, xs[0]);
      assert forall i | 1 <= i < |xs| :: xs[i] == xs[1..][i - 1];
    }
  }

  lemma CountsMakeSubset(a: seq<Task>, b: seq<Task>)
    requires forall i | 0 <= i < |a| :: Count(a, a[i]) <= Count(b, a[i])
    ensures multiset(a) <= multiset(b)
  {
    forall x: Task
      ensures multiset(a)[x] <= multiset(b)[x]
    {
      CountIsMultiplicity(a, x);
      CountIsMultiplicity(b, x);
      if x in a {
        var i :| 0 <= i < |a| && a[i] == x;
      } else {
        assert x !in multiset(a);
      }
    }
  }

  /** Liveness under endless arrivals: with a worker, everything pushed by any
      moment of a fair run has eventually been served, each task as often as it
      was pushed. */
  lemma WhatIsPushedIsServed(run: nat -> State, pick: nat -> Turn, n: nat)
    requires FairRun(run, pick) && |run(n).workers| > 0
    ensures exists m: nat :: n <= m && multiset(run(n).pushed) <= multiset(run(m).served)
  {
    WhatIsPushedIsTaken(run, pick, n);
    var k: nat :| n <= k && run(n).pushed <= run(k).popped;
    var m := AllServingsArrive(run, pick, run(n).pushed, run(n).pushed, k);
    CountsMakeSubset(run(n).pushed, run(m).served);
  }
}
