/** http/Protocol.hpp `ProcessCgi`, the parent's loops: writing the body, reading
    to end of file, waiting. While one of its calls waits the child moves, and the
    call takes one step of CgiExchange. */
module CgiServer {
  import opened CgiExchange
  import R = Response

  predicate ChildStep(step: Step) {
    step.ChildExecs? || step.ChildReads? || step.ChildAnswers? || step.ChildSeesEof?
    || step.ChildWrites? || step.ChildExits? || step.ChildCrashes?
  }

  predicate ChildOnly(steps: seq<Step>) { forall i | 0 <= i < |steps| :: ChildStep(steps[i]) }

  /** Some steps lead from one state to the other. */
  ghost predicate Reaches(c: Config, s: State, t: State) {
    exists steps: seq<Step> :: Legal(c, s, steps) && Exec(c, s, steps) == t
  }

  lemma ReachesItself(c: Config, s: State)
    ensures Reaches(c, s, s)
  {
    assert Legal(c, s, []) && Exec(c, s, []) == s;
  }

  lemma {:induction false} ExecAppend(c: Config, s: State, a: seq<Step>, b: seq<Step>)
    requires Legal(c, s, a) && Legal(c, Exec(c, s, a), b)
    ensures Legal(c, s, a + b) && Exec(c, s, a + b) == Exec(c, Exec(c, s, a), b)
    decreases a
  {
    if a == [] {
      assert a + b == b;
    } else {
      assert (a + b)[0] == a[0] && (a + b)[1..] == a[1..] + b;
      ExecAppend(c, Next(c, s, a[0]), a[1..], b);
    }
  }

  lemma ReachesOn(c: Config, s: State, t: State, u: State)
    requires Reaches(c, s, t) && Reaches(c, t, u)
    ensures Reaches(c, s, u)
  {
    var a: seq<Step> :| Legal(c, s, a) && Exec(c, s, a) == t;
    var b: seq<Step> :| Legal(c, t, b) && Exec(c, t, b) == u;
    ExecAppend(c, s, a, b);
  }

  /** The exchange has come closer to its end. */
  predicate Closer(c: Config, s: State, t: State) {
    Phase(t) < Phase(s) || (Phase(t) == Phase(s) && 0 <= Work(c, t) < Work(c, s))
  }

  lemma StepGetsCloser(c: Config, s: State, step: Step)
    requires Inv(c, s) && Enabled(c, s, step)
    ensures Inv(c, Next(c, s, step)) && Closer(c, s, Next(c, s, step))
  {
    StepKeepsDown(c, s, step);
    StepKeepsUp(c, s, step);
    if step.ChildCrashes? {
      assert Phase(Next(c, s, step)) == 0 < Phase(s);
    } else {
      StepDecreases(c, s, step);
    }
  }

  lemma CloserStill(c: Config, s: State, t: State, u: State)
    requires (t == s || Closer(c, s, t)) && Closer(c, t, u)
    ensures Closer(c, s, u)
  {
  }

  lemma ChildStepLeavesParent(c: Config, s: State, step: Step)
    requires Enabled(c, s, step) && ChildStep(step)
    ensures var t := Next(c, s, step);
            t.parent == s.parent && t.written == s.written && t.received == s.received
  {
  }

  /** While the child moves the parent stays where it is. */
  lemma {:induction false} ChildLeavesParent(c: Config, s: State, steps: seq<Step>)
    requires Inv(c, s) && Legal(c, s, steps) && ChildOnly(steps)
    ensures var t := Exec(c, s, steps);
            && Inv(c, t) && (t == s || Closer(c, s, t))
            && t.parent == s.parent && t.written == s.written && t.received == s.received
    decreases steps
  {
    if steps != [] {
      var t := Next(c, s, steps[0]);
      StepGetsCloser(c, s, steps[0]);
      ChildStepLeavesParent(c, s, steps[0]);
      ChildLeavesParent(c, t, steps[1..]);
      if Exec(c, t, steps[1..]) != t {
        CloserStill(c, s, t, Exec(c, t, steps[1..]));
      }
    }
  }

  /** The child can always stop keeping the parent waiting: by crashing. */
  lemma CrashReleases(c: Config, s: State)
    ensures s.child.Gone? || (Legal(c, s, [ChildCrashes]) && ChildOnly([ChildCrashes])
                              && Exec(c, s, [ChildCrashes]).child.Gone?)
    ensures Legal(c, s, []) && ChildOnly([]) && Exec(c, s, []) == s
  {
    if !s.child.Gone? {
      assert [ChildCrashes][1..] == [];
    }
  }

  lemma StepReaches(c: Config, s: State, step: Step)
    requires Enabled(c, s, step)
    ensures Reaches(c, s, Next(c, s, step))
  {
    var t := Next(c, s, step);
    assert Legal(c, t, []) && Exec(c, t, []) == t;
    ExecCons(c, s, step, []);
  }

  function Start(c: Config): State {
    State(if c.post then Writing else Reading, Starting, true, 0, "", "", 0, "", "")
  }

  /** The pipes and the child, as the parent's system calls see them. */
  class Exchange {
    const c: Config
    var s: State

    constructor (c: Config)
      requires c.Valid()
      ensures this.c == c && Init(c, s)
    {
      this.c := c;
      s := Start(c);
    }

    /** What happens while a call waits: the child moves, until there is room in
        its pipe or output in the other, or it is gone. */
    method ChildRuns(forRoom: bool)
      requires Inv(c, s)
      modifies this
      ensures Reaches(c, old(s), s) && Inv(c, s) && (s == old(s) || Closer(c, old(s), s))
      ensures s.parent == old(s).parent && s.written == old(s).written && s.received == old(s).received
      ensures s.child.Gone? || if forRoom then |s.down| < c.downCapacity else s.up != ""
    {
      CrashReleases(c, s);
      var steps: seq<Step> :|
        && Legal(c, s, steps) && ChildOnly(steps)
        && var t := Exec(c, s, steps);
           t.child.Gone? || if forRoom then |t.down| < c.downCapacity else t.up != "";
      ChildLeavesParent(c, s, steps);
      s := Exec(c, s, steps);
    }

    /** The parent's own step. */
    method Take(step: Step)
      requires Inv(c, s) && Enabled(c, s, step)
      modifies this
      ensures s == Next(c, old(s), step)
      ensures Reaches(c, old(s), s) && Inv(c, s) && Closer(c, old(s), s)
    {
      StepReaches(c, s, step);
      StepGetsCloser(c, s, step);
      s := Next(c, s, step);
    }

    /** write: some bytes go into the pipe, or the child is gone. */
    method Write(data: string) returns (size: int)
      requires Inv(c, s) && s.parent.Writing? && s.written < |c.body| && data == c.body[s.written..]
      modifies this
      ensures Reaches(c, old(s), s) && Inv(c, s) && s.parent.Writing? && s.received == old(s.received)
      ensures size > 0 ==> s.written == old(s.written) + size
      ensures size <= 0 ==> s.written == old(s.written) && s.child.Gone?
    {
      ChildRuns(true);
      ghost var t := s;
      if s.child.Gone? {
        return -1;
      }
      var n: nat :| 1 <= n <= |data| && |s.down| + n <= c.downCapacity;
      Take(ParentWrites(n));
      ReachesOn(c, old(s), t, s);
      size := n;
    }

    /** The parent leaves its write loop. */
    method StopWriting()
      requires Inv(c, s) && Enabled(c, s, ParentStopsWriting)
      modifies this
      ensures Reaches(c, old(s), s) && Inv(c, s) && s.parent.Reading? && s.received == old(s.received)
    {
      Take(ParentStopsWriting);
    }

    /** read of one byte, or end of file once the child is gone. */
    method Read(ch: char) returns (n: int, got: char)
      requires Inv(c, s) && s.parent.Reading?
      modifies this
      ensures Reaches(c, old(s), s) && Inv(c, s) && Closer(c, old(s), s)
      ensures n > 0 ==> s.parent.Reading? && s.received == old(s.received) + [got]
      ensures n <= 0 ==> s.parent.Waiting? && s.received == old(s.received) && got == ch
    {
      ChildRuns(false);
      ghost var t := s;
      if s.up != "" {
        got := s.up[0];
        Take(ParentReads);
        n := 1;
      } else {
        Take(ParentSeesEof);
        n, got := 0, ch;
      }
      ReachesOn(c, old(s), t, s);
      CloserStill(c, old(s), t, s);
    }

    /** waitpid: the child is gone already. */
    method WaitPid() returns (status: Status)
      requires Inv(c, s) && s.parent.Waiting?
      modifies this
      ensures Reaches(c, old(s), s) && Inv(c, s) && s.parent == Closing(CodeOf(status))
      ensures s.received == old(s.received) && old(s).child == Gone(status)
    {
      status := s.child.status;
      Take(ParentReaps);
    }

    method Close()
      requires Inv(c, s) && s.parent.Closing?
      modifies this
      ensures Reaches(c, old(s), s) && Inv(c, s) && s.parent == Done(old(s).parent.code)
      ensures s.received == old(s.received)
    {
      Take(ParentCloses);
    }
  }

  /** The write loop: all of the body, or as much as the child took. */
  method WriteBody(ex: Exchange, body: string)
    requires Inv(ex.c, ex.s) && ex.s.parent.Writing? && ex.s.written == 0 && body == ex.c.body
    modifies ex
    ensures Reaches(ex.c, old(ex.s), ex.s) && Inv(ex.c, ex.s) && ex.s.parent.Reading?
    ensures ex.s.received == old(ex.s.received)
  {
    var contentLength := |body|;
    var total := 0;
    ReachesItself(ex.c, ex.s);
    while total < contentLength
      invariant total == ex.s.written <= |body| && Inv(ex.c, ex.s) && ex.s.parent.Writing?
      invariant Reaches(ex.c, old(ex.s), ex.s) && ex.s.received == old(ex.s.received)
      decreases |body| - total
    {
      ghost var before := ex.s;
      var size := ex.Write(body[total..]);
      ReachesOn(ex.c, old(ex.s), before, ex.s);
      if size <= 0 {
        break;
      }
      total := total + size;
    }
    ghost var before := ex.s;
    ex.StopWriting();
    ReachesOn(ex.c, old(ex.s), before, ex.s);
  }

  /** The read loop: byte by byte until end of file. */
  method ReadToEof(ex: Exchange, responseBody: string) returns (body: string)
    requires Inv(ex.c, ex.s) && ex.s.parent.Reading? && ex.s.received == ""
    modifies ex
    ensures Reaches(ex.c, old(ex.s), ex.s) && Inv(ex.c, ex.s) && ex.s.parent.Waiting?
    ensures body == responseBody + ex.s.received
  {
    body := responseBody;
    ReachesItself(ex.c, ex.s);
    var n, ch := ex.Read(0 as char);
    assert responseBody + "" == responseBody && "" + [ch] == [ch];
    while n > 0
      invariant Inv(ex.c, ex.s) && Reaches(ex.c, old(ex.s), ex.s)
      invariant if n > 0 then ex.s.parent.Reading? && body + [ch] == responseBody + ex.s.received
                else ex.s.parent.Waiting? && body == responseBody + ex.s.received
      decreases Phase(ex.s), Work(ex.c, ex.s)
    {
      ghost var before := ex.s;
      body := body + [ch];
      n, ch := ex.Read(ch);
      ReachesOn(ex.c, old(ex.s), before, ex.s);
    }
  }

  /** ProcessCgi from the parent's side: it ends for every child whose calls
      return, after a run of the step system, with exactly that run's outcome. */
  method ProcessCgi(ex: Exchange, post: bool, body: string, responseBody: string)
    returns (code: R.StatusCode, output: string)
    requires ex.c.Valid() && Init(ex.c, ex.s) && post == ex.c.post && (post ==> body == ex.c.body)
    modifies ex
    ensures Reaches(ex.c, old(ex.s), ex.s) && ex.s.parent.Done? && ex.s.child.Gone?
    ensures code == Outcome(ex.s).code && output == responseBody + Outcome(ex.s).output
    ensures code == R.OK ==> output == responseBody + ex.c.Output(ex.c.body) && ex.c.ExitCode(ex.c.body) == 0
  {
    InitInv(ex.c, ex.s);
    ghost var s0 := ex.s;
    ReachesItself(ex.c, ex.s);
    if post {
      WriteBody(ex, body);
    }
    ghost var s1 := ex.s;
    output := ReadToEof(ex, responseBody);
    ReachesOn(ex.c, s0, s1, ex.s);
    ghost var s2 := ex.s;
    var status := ex.WaitPid();
    ReachesOn(ex.c, s0, s2, ex.s);
    match status {
      case Exit(exitCode) =>
        if exitCode == 0 {
          code := R.OK;
        } else {
          code := R.BAD_REQUEST;
        }
      case Signalled =>
        code := R.SERVER_ERROR;
    }
    ghost var s3 := ex.s;
    ex.Close();
    ReachesOn(ex.c, s0, s3, ex.s);
    ghost var steps: seq<Step> :| Legal(ex.c, s0, steps) && Exec(ex.c, s0, steps) == ex.s;
    ExchangeIsExact(ex.c, s0, steps);
  }

  // -------------------------------------------------------- starting a child

  /** What the machine makes of a call: a child with its pipes, or a failure. */
  datatype Launch = Started(c: Config) | PipeFails | ForkFails

  /** A child started for a call gets its query and, for a POST, its body. */
  predicate Serves(launch: Launch, call: R.CgiCall) {
    launch.Started? ==>
      && launch.c.Valid() && launch.c.post == (call.method_ == "POST")
      && launch.c.query == call.query && launch.c.body == if launch.c.post then call.body else ""
  }

  type Machine = R.CgiCall -> Launch

  ghost predicate Faithful(machine: Machine) {
    forall call: R.CgiCall :: Serves(machine(call), call)
  }

  /** An outcome ProcessCgi can have: that of a finished run, in which the child was
      killed or not, or a failure's. */
  ghost predicate MayEnd(launch: Launch, killed: bool, outcome: R.CgiOutcome) {
    match launch
    case PipeFails => !killed && outcome == R.CgiOutcome(R.SERVER_ERROR, "")
    case ForkFails => !killed && outcome == R.CgiOutcome(R.NOT_FOUND, "")
    case Started(c) =>
      exists s: State, t: State :: Init(c, s) && Reaches(c, s, t) && Finished(t, killed) && outcome == Outcome(t)
  }

  predicate Finished(t: State, killed: bool) {
    t.parent.Done? && t.child.Gone? && (t.child.status.Signalled? <==> killed)
  }

  /** A run without a kill that ever finishes. */
  predicate EndsAlone(c: Config) { c.counts || !c.execs }

  /** How it finishes. */
  function OwnOutcome(c: Config): R.CgiOutcome {
    if !c.execs then R.CgiOutcome(R.BAD_REQUEST, "")
    else if c.ExitCode(c.body) == 0 then R.CgiOutcome(R.OK, c.Output(c.body))
    else R.CgiOutcome(R.BAD_REQUEST, c.Output(c.body))
  }

  lemma FinishedRunIs(c: Config, s: State, t: State)
    requires c.Valid() && Init(c, s) && Reaches(c, s, t) && t.parent.Done?
    ensures t.child.Gone? && t.parent.code == CodeOf(t.child.status)
    ensures t.child.status.Exit? ==> EndsAlone(c) && Outcome(t) == OwnOutcome(c)
  {
    var steps: seq<Step> :| Legal(c, s, steps) && Exec(c, s, steps) == t;
    ExchangeIsExact(c, s, steps);
    InitInv(c, s);
    RunKeepsInv(c, s, steps);
  }

  lemma AloneLeavesStatus(c: Config, s: State, step: Step)
    requires Enabled(c, s, step) && !step.ChildCrashes?
    ensures var t := Next(c, s, step);
            if s.child.Gone? then t.child == s.child else t.child.Gone? ==> t.child.status.Exit?
  {
  }

  /** From any state whose child ends by itself or has ended, some run finishes
      without a further kill. */
  lemma {:induction false} CanFinish(c: Config, s: State) returns (t: State)
    requires Inv(c, s) && (EndsAlone(c) || s.child.Gone?)
    ensures Reaches(c, s, t) && Inv(c, t) && t.parent.Done? && t.child.Gone?
    ensures if s.child.Gone? then t.child == s.child else t.child.status.Exit?
    decreases Phase(s), Work(c, s)
  {
    if Stuck(c, s) {
      StuckMeansDone(c, s);
      ReachesItself(c, s);
      t := s;
    } else {
      var step: Step :| !step.ChildCrashes? && Enabled(c, s, step);
      StepGetsCloser(c, s, step);
      StepDecreases(c, s, step);
      AloneLeavesStatus(c, s, step);
      StepReaches(c, s, step);
      t := CanFinish(c, Next(c, s, step));
      ReachesOn(c, s, Next(c, s, step), t);
    }
  }

  lemma KillIsPossible(c: Config) returns (outcome: R.CgiOutcome)
    requires c.Valid()
    ensures MayEnd(Started(c), true, outcome)
  {
    var s := Start(c);
    InitInv(c, s);
    StepGetsCloser(c, s, ChildCrashes);
    StepReaches(c, s, ChildCrashes);
    var u := Next(c, s, ChildCrashes);
    var t := CanFinish(c, u);
    ReachesOn(c, s, u, t);
    outcome := Outcome(t);
    assert Init(c, s) && Reaches(c, s, t) && Finished(t, true);
  }

  lemma OwnOutcomeIsPossible(c: Config)
    requires c.Valid() && EndsAlone(c)
    ensures MayEnd(Started(c), false, OwnOutcome(c))
  {
    var s := Start(c);
    InitInv(c, s);
    var t := CanFinish(c, s);
    FinishedRunIs(c, s, t);
    assert Init(c, s) && Reaches(c, s, t) && Finished(t, false);
  }

  /** Exactly these outcomes: without a kill the one the program has on its input,
      if it ends by itself at all, and with a kill a server error. */
  lemma OutcomesOf(c: Config, killed: bool, outcome: R.CgiOutcome)
    requires c.Valid()
    ensures !killed ==> (MayEnd(Started(c), killed, outcome) <==> EndsAlone(c) && outcome == OwnOutcome(c))
    ensures killed ==> (MayEnd(Started(c), killed, outcome) ==> outcome.code == R.SERVER_ERROR)
    ensures killed ==> exists o: R.CgiOutcome :: MayEnd(Started(c), killed, o)
  {
    if MayEnd(Started(c), killed, outcome) {
      var s: State, t: State :| Init(c, s) && Reaches(c, s, t) && Finished(t, killed) && outcome == Outcome(t);
      FinishedRunIs(c, s, t);
    }
    if killed {
      var o := KillIsPossible(c);
    } else if EndsAlone(c) {
      OwnOutcomeIsPossible(c);
    }
  }

  /** ProcessCgi with its pipe and fork calls. */
  method Launched(launch: Launch, call: R.CgiCall) returns (outcome: R.CgiOutcome, ghost killed: bool)
    requires Serves(launch, call)
    ensures MayEnd(launch, false, outcome) || MayEnd(launch, true, outcome)
    ensures MayEnd(launch, killed, outcome)
  {
    killed := false;
    match launch {
      case PipeFails =>
        outcome := R.CgiOutcome(R.SERVER_ERROR, "");
      case ForkFails =>
        outcome := R.CgiOutcome(R.NOT_FOUND, "");
      case Started(c) =>
        var ex := new Exchange(c);
        ghost var s := ex.s;
        var code, output := ProcessCgi(ex, call.method_ == "POST", call.body, "");
        outcome := R.CgiOutcome(code, output);
        killed := ex.s.child.status.Signalled?;
        assert "" + Outcome(ex.s).output == Outcome(ex.s).output;
        assert Init(c, s) && Reaches(c, s, ex.s) && Finished(ex.s, killed) && outcome == Outcome(ex.s);
    }
  }
}
