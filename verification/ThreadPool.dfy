/** http/ThreadPool.hpp: workers and pushers over one queue, one mutex and one
    condition variable that is signalled after the mutex was released. */
module ThreadPool {
  import opened Counting

  /** A connection waiting to be served; the socket number identifies it. */
  type Task = int

  datatype Holder = Free | HeldByWorker(w: nat) | HeldByPusher(p: nat)

  /** Where a worker is inside `ThreadRoutine`. */
  datatype Worker =
    | Locking               // wants the mutex
    | Testing               // holds it, evaluates TaskQueueIsEmpty
    | Parking               // queue was empty, is about to wait
    | Blocked               // in the wait set, mutex released
    | Waking                // left the wait set, wants the mutex again
    | Popping               // queue was not empty, is about to pop
    | Unlocking(task: Task)
    | Processing(task: Task)

  /** Where a caller is inside `PushTask`. */
  datatype Pusher =
    | Idle
    | Acquiring(task: Task)
    | Enqueuing(task: Task) // holds the mutex
    | Releasing
    | Signalling            // mutex released, signal not yet sent

  /** `pushed`, `popped` and `served` are history; no step reads them. */
  datatype State = State(
    holder: Holder,
    queue: seq<Task>,
    workers: seq<Worker>,
    pushers: seq<Pusher>,
    pushed: seq<Task>,
    popped: seq<Task>,
    served: seq<Task>)

  datatype Step =
    | Call(p: nat, task: Task)
    | PusherStep(p: nat, woken: nat)  // a signal reaches some blocked worker
    | WorkerStep(w: nat)
    | Spurious(w: nat)

  predicate Init(s: State) {
    && s.holder == Free && s.queue == [] && s.pushed == [] && s.popped == []
    && s.served == []
    && (forall i | 0 <= i < |s.workers| :: s.workers[i] == Locking)
    && (forall i | 0 <= i < |s.pushers| :: s.pushers[i] == Idle)
  }

  predicate SomeBlocked(s: State) {
    exists i | 0 <= i < |s.workers| :: s.workers[i].Blocked?
  }

  predicate Enabled(s: State, step: Step) {
    match step
    case Call(p, _) => p < |s.pushers| && s.pushers[p].Idle?
    case PusherStep(p, woken) =>
      && p < |s.pushers| && !s.pushers[p].Idle?
      && (s.pushers[p].Acquiring? ==> s.holder.Free?)
      && (s.pushers[p].Signalling? && SomeBlocked(s) ==> woken < |s.workers| && s.workers[woken].Blocked?)
    case WorkerStep(w) =>
      && w < |s.workers| && !s.workers[w].Blocked?
      && (s.workers[w].Locking? || s.workers[w].Waking? ==> s.holder.Free?)
      && (s.workers[w].Popping? ==> s.queue != [])
    case Spurious(w) => w < |s.workers| && s.workers[w].Blocked?
  }

  function NextWorker(s: State, w: nat): State
    requires Enabled(s, WorkerStep(w))
  {
    match s.workers[w]
    case Locking => s.(holder := HeldByWorker(w), workers := s.workers[w := Testing])
    case Waking => s.(holder := HeldByWorker(w), workers := s.workers[w := Testing])
    case Testing => s.(workers := s.workers[w := if s.queue == [] then Parking else Popping])
    case Parking => s.(holder := Free, workers := s.workers[w := Blocked])
    case Popping =>
      s.(queue := s.queue[1..], popped := s.popped + [s.queue[0]],
         workers := s.workers[w := Unlocking(s.queue[0])])
    case Unlocking(t) => s.(holder := Free, workers := s.workers[w := Processing(t)])
    case Processing(t) => s.(served := s.served + [t], workers := s.workers[w := Locking])
  }

  function NextPusher(s: State, p: nat, woken: nat): State
    requires Enabled(s, PusherStep(p, woken))
  {
    match s.pushers[p]
    case Acquiring(t) => s.(holder := HeldByPusher(p), pushers := s.pushers[p := Enqueuing(t)])
    case Enqueuing(t) =>
      s.(queue := s.queue + [t], pushed := s.pushed + [t], pushers := s.pushers[p := Releasing])
    case Releasing => s.(holder := Free, pushers := s.pushers[p := Signalling])
    case Signalling =>
      s.(pushers := s.pushers[p := Idle],
         workers := if SomeBlocked(s) then s.workers[woken := Waking] else s.workers)
  }

  function Next(s: State, step: Step): State
    requires Enabled(s, step)
  {
    match step
    case Call(p, t) => s.(pushers := s.pushers[p := Acquiring(t)])
    case PusherStep(p, woken) => NextPusher(s, p, woken)
    case WorkerStep(w) => NextWorker(s, w)
    case Spurious(w) => s.(workers := s.workers[w := Waking])
  }

  predicate Legal(s: State, steps: seq<Step>)
    decreases steps
  {
    steps == [] || (Enabled(s, steps[0]) && Legal(Next(s, steps[0]), steps[1..]))
  }

  function Exec(s: State, steps: seq<Step>): State
    requires Legal(s, steps)
    decreases steps
  {
    if steps == [] then s else Exec(Next(s, steps[0]), steps[1..])
  }

  // --------------------------------------------------------------- invariants

  predicate WorkerHolds(w: Worker) {
    w.Testing? || w.Parking? || w.Popping? || w.Unlocking?
  }

  predicate PusherHolds(p: Pusher) { p.Enqueuing? || p.Releasing? }

  predicate LockInv(s: State) {
    && (forall i | 0 <= i < |s.workers| :: WorkerHolds(s.workers[i]) <==> s.holder == HeldByWorker(i))
    && (forall i | 0 <= i < |s.pushers| :: PusherHolds(s.pushers[i]) <==> s.holder == HeldByPusher(i))
    && (s.holder.HeldByWorker? ==> s.holder.w < |s.workers|)
    && (s.holder.HeldByPusher? ==> s.holder.p < |s.pushers|)
    && (forall i | 0 <= i < |s.workers| :: s.workers[i].Parking? ==> s.queue == [])
    && (forall i | 0 <= i < |s.workers| :: s.workers[i].Popping? ==> s.queue != [])
  }

  /** A signal this pusher still has to send. */
  function PendingSignal(p: Pusher): nat {
    if p.Releasing? || p.Signalling? then 1 else 0
  }

  /** A worker that will look at the queue before it can block. */
  function AboutToTest(w: Worker): nat {
    if w.Locking? || w.Testing? || w.Waking? || w.Popping? then 1 else 0
  }

  /** No wake-up is lost: while a worker is blocked, every queued task is
      covered by a signal still to come or by a worker about to look. */
  predicate WakeInv(s: State) {
    SomeBlocked(s) ==> |s.queue| <= Total(s.pushers, PendingSignal) + Total(s.workers, AboutToTest)
  }

  function Count(tasks: seq<Task>, task: Task): nat {
    if tasks == [] then 0
    else Count(tasks[..|tasks| - 1], task) + if tasks[|tasks| - 1] == task then 1 else 0
  }

  lemma CountSnoc(tasks: seq<Task>, last: Task, task: Task)
    ensures Count(tasks + [last], task) == Count(tasks, task) + if last == task then 1 else 0
  {
    assert (tasks + [last])[..|tasks|] == tasks;
  }

  lemma {:induction false} CountIsMultiplicity(tasks: seq<Task>, task: Task)
    ensures Count(tasks, task) == multiset(tasks)[task]
  {
    if tasks != [] {
      var last := |tasks| - 1;
      CountIsMultiplicity(tasks[..last], task);
      assert tasks == tasks[..last] + [tasks[last]];
    }
  }

  /** How many workers have taken this task and not yet finished it. */
  function InHand(ws: seq<Worker>, task: Task): nat {
    if ws == [] then 0 else Holds(ws[0], task) + InHand(ws[1..], task)
  }

  function Holds(w: Worker, task: Task): nat {
    if (w.Unlocking? || w.Processing?) && w.task == task then 1 else 0
  }

  lemma {:induction false} InHandUpdate(ws: seq<Worker>, i: nat, w: Worker, task: Task)
    requires i < |ws|
    ensures InHand(ws[i := w], task) + Holds(ws[i], task) == InHand(ws, task) + Holds(w, task)
  {
    if i == 0 {
      assert ws[0 := w][1..] == ws[1..];
    } else {
      assert ws[i := w][1..] == ws[1..][i - 1 := w];
      InHandUpdate(ws[1..], i - 1, w, task);
    }
  }

  /** Each time the task was popped it is now served or with one worker. */
  predicate Accounted(popped: seq<Task>, served: seq<Task>, ws: seq<Worker>, task: Task) {
    Count(popped, task) == Count(served, task) + InHand(ws, task)
  }

  /** First in, first out, and every task popped is with exactly one worker or served. */
  ghost predicate TaskInv(s: State) {
    && s.pushed == s.popped + s.queue
    && forall task :: Accounted(s.popped, s.served, s.workers, task)
  }

  ghost predicate Inv(s: State) {
    LockInv(s) && WakeInv(s) && TaskInv(s)
  }

  lemma {:induction false} IdleHandsEmpty(ws: seq<Worker>, task: Task)
    requires forall i | 0 <= i < |ws| :: Holds(ws[i], task) == 0
    ensures InHand(ws, task) == 0
  {
    if ws != [] {
      IdleHandsEmpty(ws[1..], task);
    }
  }

  lemma InitInv(s: State)
    requires Init(s)
    ensures Inv(s)
  {
    forall task
      ensures Accounted(s.popped, s.served, s.workers, task)
    {
      IdleHandsEmpty(s.workers, task);
    }
  }

  lemma WorkerKeepsLock(s: State, w: nat)
    requires LockInv(s) && Enabled(s, WorkerStep(w))
    ensures LockInv(NextWorker(s, w))
  {
  }

  lemma WorkerKeepsWake(s: State, w: nat)
    requires LockInv(s) && WakeInv(s) && Enabled(s, WorkerStep(w))
    ensures WakeInv(NextWorker(s, w))
  {
    var t := NextWorker(s, w);
    TotalUpdate(s.workers, w, t.workers[w], AboutToTest);
    if SomeBlocked(t) && !s.workers[w].Parking? {
      var i :| 0 <= i < |t.workers| && t.workers[i].Blocked?;
      assert s.workers[i].Blocked?;
    }
  }

  lemma PopAccounts(popped: seq<Task>, served: seq<Task>, ws: seq<Worker>, w: nat, x: Task, task: Task)
    requires w < |ws| && ws[w].Popping? && Accounted(popped, served, ws, task)
    ensures Accounted(popped + [x], served, ws[w := Unlocking(x)], task)
  {
    InHandUpdate(ws, w, Unlocking(x), task);
    CountSnoc(popped, x, task);
  }

  lemma ServeAccounts(popped: seq<Task>, served: seq<Task>, ws: seq<Worker>, w: nat, task: Task)
    requires w < |ws| && ws[w].Processing? && Accounted(popped, served, ws, task)
    ensures Accounted(popped, served + [ws[w].task], ws[w := Locking], task)
  {
    InHandUpdate(ws, w, Locking, task);
    CountSnoc(served, ws[w].task, task);
  }

  lemma KeepAccounts(popped: seq<Task>, served: seq<Task>, ws: seq<Worker>, w: nat, after: Worker, task: Task)
    requires w < |ws| && Holds(ws[w], task) == Holds(after, task) && Accounted(popped, served, ws, task)
    ensures Accounted(popped, served, ws[w := after], task)
  {
    InHandUpdate(ws, w, after, task);
  }

  lemma WorkerKeepsTasks(s: State, w: nat)
    requires TaskInv(s) && Enabled(s, WorkerStep(w))
    ensures TaskInv(NextWorker(s, w))
  {
    var t := NextWorker(s, w);
    if s.workers[w].Popping? {
      assert s.queue == [s.queue[0]] + s.queue[1..];
      assert s.popped + [s.queue[0]] + s.queue[1..] == s.popped + s.queue;
    }
    forall task
      ensures Accounted(t.popped, t.served, t.workers, task)
    {
      WorkerKeepsAccounts(s, w, task);
    }
  }

  /** Only popping and serving move a task. */
  lemma OthersMoveNoTask(s: State, w: nat, task: Task)
    requires Enabled(s, WorkerStep(w)) && !s.workers[w].Popping? && !s.workers[w].Processing?
    ensures var t := NextWorker(s, w);
            && w < |t.workers| && t.workers == s.workers[w := t.workers[w]]
            && Holds(t.workers[w], task) == Holds(s.workers[w], task)
            && t.popped == s.popped && t.served == s.served
  {
  }

  lemma PopMovesFirst(s: State, w: nat)
    requires Enabled(s, WorkerStep(w)) && s.workers[w].Popping?
    ensures var t := NextWorker(s, w);
            && t.popped == s.popped + [s.queue[0]] && t.served == s.served
            && t.workers == s.workers[w := Unlocking(s.queue[0])]
  {
  }

  lemma ServeMovesTask(s: State, w: nat)
    requires Enabled(s, WorkerStep(w)) && s.workers[w].Processing?
    ensures var t := NextWorker(s, w);
            && t.popped == s.popped && t.served == s.served + [s.workers[w].task]
            && t.workers == s.workers[w := Locking]
  {
  }

  lemma WorkerKeepsAccounts(s: State, w: nat, task: Task)
    requires Enabled(s, WorkerStep(w)) && Accounted(s.popped, s.served, s.workers, task)
    ensures var t := NextWorker(s, w); Accounted(t.popped, t.served, t.workers, task)
  {
    var t := NextWorker(s, w);
    if s.workers[w].Popping? {
      PopMovesFirst(s, w);
      PopAccounts(s.popped, s.served, s.workers, w, s.queue[0], task);
    } else if s.workers[w].Processing? {
      ServeMovesTask(s, w);
      ServeAccounts(s.popped, s.served, s.workers, w, task);
    } else {
      OthersMoveNoTask(s, w, task);
      KeepAccounts(s.popped, s.served, s.workers, w, t.workers[w], task);
    }
  }

  lemma PusherKeepsLock(s: State, p: nat, woken: nat)
    requires LockInv(s) && Enabled(s, PusherStep(p, woken))
    ensures LockInv(NextPusher(s, p, woken))
  {
  }

  lemma PusherKeepsWake(s: State, p: nat, woken: nat)
    requires WakeInv(s) && Enabled(s, PusherStep(p, woken))
    ensures WakeInv(NextPusher(s, p, woken))
  {
    var t := NextPusher(s, p, woken);
    TotalUpdate(s.pushers, p, t.pushers[p], PendingSignal);
    if s.pushers[p].Signalling? && SomeBlocked(s) {
      TotalUpdate(s.workers, woken, Waking, AboutToTest);
    }
  }

  lemma PusherKeepsTasks(s: State, p: nat, woken: nat)
    requires TaskInv(s) && Enabled(s, PusherStep(p, woken))
    ensures TaskInv(NextPusher(s, p, woken))
  {
    if s.pushers[p].Signalling? && SomeBlocked(s) {
      WakingKeepsTasks(s, woken);
    }
  }

  lemma WakingKeepsTasks(s: State, w: nat)
    requires TaskInv(s) && w < |s.workers| && s.workers[w].Blocked?
    ensures TaskInv(s.(workers := s.workers[w := Waking]))
  {
    var after := s.workers[w := Waking];
    forall task
      ensures Accounted(s.popped, s.served, after, task)
    {
      assert Accounted(s.popped, s.served, s.workers, task);
      InHandUpdate(s.workers, w, Waking, task);
    }
  }

  lemma CallKeepsInv(s: State, p: nat, task: Task)
    requires Inv(s) && Enabled(s, Call(p, task))
    ensures Inv(Next(s, Call(p, task)))
  {
    TotalUpdate(s.pushers, p, Acquiring(task), PendingSignal);
  }

  lemma SpuriousKeepsInv(s: State, w: nat)
    requires Inv(s) && Enabled(s, Spurious(w))
    ensures Inv(Next(s, Spurious(w)))
  {
    WakingKeepsTasks(s, w);
    TotalUpdate(s.workers, w, Waking, AboutToTest);
  }

  lemma StepKeepsInv(s: State, step: Step)
    requires Inv(s) && Enabled(s, step)
    ensures Inv(Next(s, step))
  {
    match step
    case Call(p, task) => CallKeepsInv(s, p, task);
    case PusherStep(p, woken) =>
      PusherKeepsLock(s, p, woken);
      PusherKeepsWake(s, p, woken);
      PusherKeepsTasks(s, p, woken);
    case WorkerStep(w) =>
      WorkerKeepsLock(s, w);
      WorkerKeepsWake(s, w);
      WorkerKeepsTasks(s, w);
    case Spurious(w) => SpuriousKeepsInv(s, w);
  }

  lemma {:induction false} StepKeepsWorkers(s: State, step: Step)
    requires Enabled(s, step)
    ensures |Next(s, step).workers| == |s.workers|
  {
  }

  lemma {:induction false} RunKeepsInv(s: State, steps: seq<Step>)
    requires Inv(s) && Legal(s, steps)
    ensures Inv(Exec(s, steps)) && |Exec(s, steps).workers| == |s.workers|
    decreases steps
  {
    if steps != [] {
      StepKeepsInv(s, steps[0]);
      StepKeepsWorkers(s, steps[0]);
      RunKeepsInv(Next(s, steps[0]), steps[1..]);
    }
  }

  // ----------------------------------------------------------------- theorems

  /** No lost wake-up, in every reachable state. */
  lemma NoLostWakeup(s: State, steps: seq<Step>)
    requires Init(s) && Legal(s, steps)
    ensures var t := Exec(s, steps);
            SomeBlocked(t) ==> |t.queue| <= Total(t.pushers, PendingSignal) + Total(t.workers, AboutToTest)
  {
    InitInv(s);
    RunKeepsInv(s, steps);
  }

  /** Tasks leave the queue in the order they entered it, and each is handed to
      exactly one worker. */
  lemma TasksServedOnceInOrder(s: State, steps: seq<Step>)
    requires Init(s) && Legal(s, steps)
    ensures var t := Exec(s, steps);
            && t.pushed == t.popped + t.queue
            && forall task :: Accounted(t.popped, t.served, t.workers, task)
  {
    InitInv(s);
    RunKeepsInv(s, steps);
  }

  /** `front` and `pop` are only ever called on a non-empty queue. */
  lemma PopIsAlwaysSafe(s: State, steps: seq<Step>, w: nat)
    requires Init(s) && Legal(s, steps) && w < |s.workers|
    ensures var t := Exec(s, steps);
            |t.workers| == |s.workers| && (t.workers[w].Popping? ==> t.queue != [] && t.holder == HeldByWorker(w))
  {
    InitInv(s);
    RunKeepsInv(s, steps);
  }

  /** Nothing moves on its own any more: no thread inside a call can step. */
  ghost predicate Stuck(s: State) {
    && (forall w: nat :: !Enabled(s, WorkerStep(w)))
    && (forall p: nat, woken: nat :: !Enabled(s, PusherStep(p, woken)))
  }

  lemma StuckShape(s: State)
    requires Inv(s) && Stuck(s)
    ensures forall i | 0 <= i < |s.workers| :: s.workers[i].Blocked?
    ensures forall i | 0 <= i < |s.pushers| :: s.pushers[i].Idle?
    ensures |s.workers| > 0 ==> s.queue == []
    ensures multiset(s.served) == multiset(s.popped)
  {
    assert s.holder.HeldByWorker? ==> Enabled(s, WorkerStep(s.holder.w));
    assert s.holder.HeldByPusher? ==> Enabled(s, PusherStep(s.holder.p, 0));
    assert s.holder.Free?;
    forall i | 0 <= i < |s.workers|
      ensures s.workers[i].Blocked?
    {
      assert !Enabled(s, WorkerStep(i));
    }
    forall i | 0 <= i < |s.pushers|
      ensures s.pushers[i].Idle?
    {
      var woken: nat := if SomeBlocked(s) then var j :| 0 <= j < |s.workers| && s.workers[j].Blocked?; j else 0;
      assert !Enabled(s, PusherStep(i, woken));
    }
    if |s.workers| > 0 {
      assert s.workers[0].Blocked?;
      TotalZero(s.pushers, PendingSignal);
      TotalZero(s.workers, AboutToTest);
    }
    forall task
      ensures multiset(s.served)[task] == multiset(s.popped)[task]
    {
      assert Accounted(s.popped, s.served, s.workers, task);
      IdleHandsEmpty(s.workers, task);
      CountIsMultiplicity(s.served, task);
      CountIsMultiplicity(s.popped, task);
    }
  }

  lemma {:induction false} NoWorkersNothingPopped(s: State, steps: seq<Step>)
    requires Legal(s, steps) && s.workers == []
    ensures Exec(s, steps).workers == [] && Exec(s, steps).popped == s.popped
    decreases steps
  {
    if steps != [] {
      NoWorkersNothingPopped(Next(s, steps[0]), steps[1..]);
    }
  }

  /** At rest, every task ever pushed has been served if and only if a worker
      thread exists or nothing was pushed. */
  lemma RestMeansAllServed(s: State, steps: seq<Step>)
    requires Init(s) && Legal(s, steps) && Stuck(Exec(s, steps))
    ensures var t := Exec(s, steps);
            multiset(t.served) == multiset(t.pushed) <==> (|s.workers| > 0 || t.pushed == [])
  {
    InitInv(s);
    RunKeepsInv(s, steps);
    var t := Exec(s, steps);
    StuckShape(t);
    if |s.workers| > 0 {
      assert t.pushed == t.popped;
    } else {
      NoWorkersNothingPopped(s, steps);
      assert t.popped == [];
      assert t.pushed != [] ==> t.pushed[0] in multiset(t.pushed);
    }
  }

  /** How many threads InitThreadPool leaves: those before the first failure. */
  function ThreadsMade(creates: seq<bool>): (n: nat)
    ensures n <= |creates| && (forall i | 0 <= i < n :: creates[i]) && (n < |creates| ==> !creates[n])
  {
    if creates == [] || !creates[0] then 0 else 1 + ThreadsMade(creates[1..])
  }

  lemma {:induction false} ThreadsMadeIs(creates: seq<bool>, n: nat)
    requires n <= |creates| && (forall i | 0 <= i < n :: creates[i]) && (n < |creates| ==> !creates[n])
    ensures n == ThreadsMade(creates)
  {
    if n > 0 {
      ThreadsMadeIs(creates[1..], n - 1);
    }
  }

  /** The pool as InitThreadPool leaves it: at rest every task ever pushed has been
      served if and only if the very first thread creation succeeded, whatever
      became of the others and of the reported result, or nothing was pushed. */
  lemma FirstThreadDecides(creates: seq<bool>, s: State, steps: seq<Step>)
    requires Init(s) && |s.workers| == ThreadsMade(creates) && Legal(s, steps) && Stuck(Exec(s, steps))
    ensures var t := Exec(s, steps);
            multiset(t.served) == multiset(t.pushed) <==> (creates != [] && creates[0]) || t.pushed == []
  {
    RestMeansAllServed(s, steps);
  }

  lemma ExecCons(s: State, step: Step, rest: seq<Step>)
    requires Enabled(s, step) && Legal(Next(s, step), rest)
    ensures Legal(s, [step] + rest) && Exec(s, [step] + rest) == Exec(Next(s, step), rest)
  {
    assert ([step] + rest)[1..] == rest;
  }

  /** Without a worker a pushed task stays in the queue for good. */
  lemma UnservedWithoutWorker(s: State, task: Task)
    requires Init(s) && s.workers == [] && |s.pushers| == 1
    ensures var p := PusherStep(0, 0);
            var push := [Call(0, task)] + ([p] + ([p] + ([p] + ([p] + []))));
            Legal(s, push) && Stuck(Exec(s, push)) && Exec(s, push).queue == [task] && Exec(s, push).served == []
  {
    var p := PusherStep(0, 0);
    var s1 := Next(s, Call(0, task));
    var s2 := Next(s1, p);
    var s3 := Next(s2, p);
    var s4 := Next(s3, p);
    var s5 := Next(s4, p);
    ExecCons(s4, p, []);
    ExecCons(s3, p, [p] + []);
    ExecCons(s2, p, [p] + ([p] + []));
    ExecCons(s1, p, [p] + ([p] + ([p] + [])));
    ExecCons(s, Call(0, task), [p] + ([p] + ([p] + ([p] + []))));
    assert s5.queue == [] + [task];
  }

  // ----------------------------------------------------------------- progress

  function PusherRank(p: Pusher): nat {
    match p
    case Acquiring(_) => 4
    case Enqueuing(_) => 3
    case Releasing => 2
    case Signalling => 1
    case Idle => 0
  }

  function WorkerRank(w: Worker): nat {
    match w
    case Unlocking(_) => 6
    case Processing(_) => 5
    case Locking => 4
    case Waking => 4
    case Testing => 3
    case Popping => 2
    case Parking => 2
    case Blocked => 1
  }

  lemma PusherStepDecreases(s: State, p: nat, woken: nat)
    requires Enabled(s, PusherStep(p, woken))
    ensures Total(NextPusher(s, p, woken).pushers, PusherRank) < Total(s.pushers, PusherRank)
  {
    var after := NextPusher(s, p, woken).pushers[p];
    assert NextPusher(s, p, woken).pushers == s.pushers[p := after];
    assert PusherRank(after) < PusherRank(s.pushers[p]);
    TotalUpdate(s.pushers, p, after, PusherRank);
  }

  lemma WorkerStepDecreases(s: State, w: nat)
    requires Enabled(s, WorkerStep(w))
    ensures var t := NextWorker(s, w);
            && t.pushers == s.pushers
            && (|t.queue| < |s.queue|
                || (|t.queue| == |s.queue| && Total(t.workers, WorkerRank) < Total(s.workers, WorkerRank)))
  {
    var after := NextWorker(s, w).workers[w];
    assert NextWorker(s, w).workers == s.workers[w := after];
    assert s.workers[w].Popping? || WorkerRank(after) < WorkerRank(s.workers[w]);
    TotalUpdate(s.workers, w, after, WorkerRank);
  }

  /** Own steps of the threads bring the pool closer to rest: first the pushers'
      remaining work shrinks, then the queue, then the workers' way to the wait. */
  lemma OwnStepDecreases(s: State, step: Step)
    requires Enabled(s, step) && (step.PusherStep? || step.WorkerStep?)
    ensures var t := Next(s, step);
            || Total(t.pushers, PusherRank) < Total(s.pushers, PusherRank)
            || (Total(t.pushers, PusherRank) == Total(s.pushers, PusherRank)
                && (|t.queue| < |s.queue|
                    || (|t.queue| == |s.queue| && Total(t.workers, WorkerRank) < Total(s.workers, WorkerRank))))
  {
    match step
    case PusherStep(p, woken) => PusherStepDecreases(s, p, woken);
    case WorkerStep(w) => WorkerStepDecreases(s, w);
  }

  /** A schedule: while some thread can move on its own, one of them does. */
  ghost predicate Schedule(run: nat -> State, pick: nat -> Step) {
    forall n: nat :: Stuck(run(n)) ||
      ((pick(n).PusherStep? || pick(n).WorkerStep?)
       && Enabled(run(n), pick(n)) && run(n + 1) == Next(run(n), pick(n)))
  }

  lemma {:induction false} ScheduleSettles(run: nat -> State, pick: nat -> Step, n: nat) returns (m: nat)
    requires Schedule(run, pick) && Inv(run(n))
    ensures n <= m && Stuck(run(m)) && Inv(run(m)) && |run(m).workers| == |run(n).workers|
    decreases Total(run(n).pushers, PusherRank), |run(n).queue|, Total(run(n).workers, WorkerRank)
  {
    if Stuck(run(n)) {
      m := n;
    } else {
      StepKeepsInv(run(n), pick(n));
      OwnStepDecreases(run(n), pick(n));
      m := ScheduleSettles(run, pick, n + 1);
    }
  }

  /** From any reachable state, whatever the scheduler and the signals do, the
      pool comes to rest after finitely many own steps, and with at least one
      worker every task pushed has then been served. */
  lemma EveryScheduleServesAll(s: State, steps: seq<Step>, run: nat -> State, pick: nat -> Step)
    requires Init(s) && Legal(s, steps) && run(0) == Exec(s, steps) && Schedule(run, pick)
    requires |s.workers| > 0
    ensures exists m: nat :: Stuck(run(m)) && run(m).queue == [] && multiset(run(m).served) == multiset(run(m).pushed)
  {
    InitInv(s);
    RunKeepsInv(s, steps);
    var m := ScheduleSettles(run, pick, 0);
    StuckShape(run(m));
    assert run(m).pushed == run(m).popped;
  }

  // ------------------------------------------------------- the queue, in place

  class Pool {
    const num: nat
    var taskQueue: seq<Task>
    var created: nat

    /** The queue and the threads are those of the step system's state. */
    ghost predicate Implements(s: State)
      reads this
    {
      taskQueue == s.queue && created == |s.workers|
    }

    constructor (num: nat)
      ensures this.num == num && taskQueue == [] && created == 0
    {
      this.num, taskQueue, created := num, [], 0;
    }

    /** `creates[i]` tells whether the i-th pthread_create succeeds. The pool
        keeps the threads made before the first failure. */
    method InitThreadPool(creates: seq<bool>) returns (ok: bool)
      requires |creates| == num && created == 0
      modifies this`created
      ensures ok <==> forall i | 0 <= i < num :: creates[i]
      ensures created == ThreadsMade(creates)
    {
      for i := 0 to num
        invariant created == i && forall j | 0 <= j < i :: creates[j]
      {
        if !creates[i] {
          ThreadsMadeIs(creates, created);
          return false;
        }
        created := created + 1;
      }
      ThreadsMadeIs(creates, created);
      return true;
    }

    method TaskQueueIsEmpty() returns (b: bool)
      ensures b <==> taskQueue == []
    {
      b := if |taskQueue| == 0 then true else false;
    }

    /** The critical section of PushTask: implements the pusher's enqueuing step. */
    method PushTask(task: Task, ghost s: State, ghost p: nat)
      requires Implements(s) && p < |s.pushers| && s.pushers[p] == Enqueuing(task)
      modifies this`taskQueue
      ensures Implements(Next(s, PusherStep(p, 0)))
      ensures taskQueue == old(taskQueue) + [task]
    {
      taskQueue := taskQueue + [task];
    }

    /** Implements the worker's popping step; the caller's loop guards it. */
    method PopTask(ghost s: State, ghost w: nat) returns (task: Task)
      requires Implements(s) && taskQueue != [] && w < |s.workers| && s.workers[w].Popping?
      modifies this`taskQueue
      ensures Implements(Next(s, WorkerStep(w)))
      ensures Next(s, WorkerStep(w)).workers[w] == Unlocking(task)
      ensures [task] + taskQueue == old(taskQueue)
    {
      task := taskQueue[0];
      taskQueue := taskQueue[1..];
    }
  }
}
