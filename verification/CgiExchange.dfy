/** http/Protocol.hpp `ProcessCgi` and http/cgi/comm.hpp `GetQueryString`: the
    server and a CGI child over two bounded pipes. The parent writes the body,
    reads until the child's end is closed, then waits for the child; it closes
    its own write end only after that, so the child never sees end of file. */
module CgiExchange {
  import opened Text
  import opened Utill
  import R = Response

  datatype Status = Exit(code: nat) | Signalled

  /** A child that `counts` reads as many bytes as announced; one that does not
      reads until end of file. `program` maps the query of the environment and
      the input to output and exit code. */
  datatype Config = Config(
    post: bool,
    query: string,
    body: string,
    downCapacity: nat,
    upCapacity: nat,
    execs: bool,
    counts: bool,
    program: (string, string) -> (string, nat))
  {
    predicate Valid() { downCapacity > 0 && upCapacity > 0 && (!post ==> body == "") }

    /** What the program prints and how it exits when it has read this input. */
    function Output(input: string): string { program(query, input).0 }

    function ExitCode(input: string): nat { program(query, input).1 }
  }

  /** `Closing` is the parent between waitpid and closing its ends. */
  datatype Parent = Writing | Reading | Waiting | Closing(code: R.StatusCode) | Done(code: R.StatusCode)

  datatype Child = Starting | Consuming | Answering | Gone(status: Status)

  /** `down` and `up` are the pipes' contents, `downOpen` tells whether the parent
      still has its write end; `got` and `received` are what the child and the
      parent have read so far. */
  datatype State = State(
    parent: Parent,
    child: Child,
    downOpen: bool,
    written: nat,
    down: string,
    got: string,
    answered: nat,
    up: string,
    received: string)

  datatype Step =
    | ParentWrites(n: nat) | ParentStopsWriting | ParentReads | ParentSeesEof | ParentReaps | ParentCloses
    | ChildExecs | ChildReads | ChildAnswers | ChildSeesEof | ChildWrites(n: nat) | ChildExits
    | ChildCrashes

  function Answer(c: Config, s: State): string { c.Output(s.got) }

  predicate Init(c: Config, s: State) {
    s == State(if c.post then Writing else Reading, Starting, true, 0, "", "", 0, "", "")
  }

  predicate Enabled(c: Config, s: State, step: Step) {
    match step
    case ParentWrites(n) =>
      s.parent.Writing? && !s.child.Gone? && s.written + n <= |c.body| && 1 <= n && |s.down| + n <= c.downCapacity
    case ParentStopsWriting =>
      // the whole body is written, or write fails because nobody can read it
      s.parent.Writing? && (s.written >= |c.body| || s.child.Gone?)
    case ParentReads => s.parent.Reading? && s.up != ""
    case ParentSeesEof => s.parent.Reading? && s.up == "" && s.child.Gone?
    case ParentReaps => s.parent.Waiting? && s.child.Gone?
    case ParentCloses => s.parent.Closing?
    case ChildExecs => s.child.Starting?
    case ChildReads => s.child.Consuming? && s.down != "" && (c.counts ==> |s.got| < |c.body|)
    case ChildAnswers => s.child.Consuming? && c.counts && |s.got| >= |c.body|
    case ChildSeesEof => s.child.Consuming? && !c.counts && s.down == "" && !s.downOpen
    case ChildWrites(n) =>
      s.child.Answering? && s.answered + n <= |Answer(c, s)| && 1 <= n && |s.up| + n <= c.upCapacity
    case ChildExits => s.child.Answering? && s.answered == |Answer(c, s)|
    case ChildCrashes => !s.child.Gone?
  }

  /** The status code the parent derives from the child's end. */
  function CodeOf(status: Status): R.StatusCode {
    match status
    case Exit(code) => if code == 0 then 200 else 400
    case Signalled => 500
  }

  function Next(c: Config, s: State, step: Step): State
    requires Enabled(c, s, step)
  {
    match step
    case ParentWrites(n) =>
      s.(down := s.down + c.body[s.written..s.written + n], written := s.written + n)
    case ParentStopsWriting => s.(parent := Reading)
    case ParentReads => s.(received := s.received + s.up[..1], up := s.up[1..])
    case ParentSeesEof => s.(parent := Waiting)
    case ParentReaps => s.(parent := Closing(CodeOf(s.child.status)))
    case ParentCloses => s.(parent := Done(s.parent.code), downOpen := false)
    case ChildExecs => s.(child := if c.execs then Consuming else Gone(Exit(1)))
    case ChildReads => s.(got := s.got + s.down[..1], down := s.down[1..])
    case ChildAnswers => s.(child := Answering)
    case ChildSeesEof => s.(child := Answering)
    case ChildWrites(n) =>
      s.(up := s.up + Answer(c, s)[s.answered..s.answered + n], answered := s.answered + n)
    case ChildExits => s.(child := Gone(Exit(c.ExitCode(s.got))))
    case ChildCrashes => s.(child := Gone(Signalled))
  }

  predicate Legal(c: Config, s: State, steps: seq<Step>)
    decreases steps
  {
    steps == [] || (Enabled(c, s, steps[0]) && Legal(c, Next(c, s, steps[0]), steps[1..]))
  }

  function Exec(c: Config, s: State, steps: seq<Step>): State
    requires Legal(c, s, steps)
    decreases steps
  {
    if steps == [] then s else Exec(c, Next(c, s, steps[0]), steps[1..])
  }

  // --------------------------------------------------------------- invariants

  /** The pipe to the child: nothing lost, doubled or reordered. */
  predicate DownInv(c: Config, s: State) {
    && c.Valid() && s.written <= |c.body| && |s.down| <= c.downCapacity
    && s.got + s.down == c.body[..s.written]
    && (s.child.Starting? ==> s.got == "")
    && (s.child.Answering? ==> s.got == c.body && c.counts)
    && (!s.parent.Writing? && !s.child.Gone? ==> s.written == |c.body|)
    && (s.downOpen <==> !s.parent.Done?)
  }

  /** The pipe to the parent, and what each end state means. */
  predicate UpInv(c: Config, s: State) {
    && s.answered <= |Answer(c, s)| && |s.up| <= c.upCapacity
    && s.received + s.up == Answer(c, s)[..s.answered]
    && (s.child.Starting? || s.child.Consuming? ==> s.answered == 0)
    && (s.child.Gone? && s.child.status.Exit? ==>
          if c.execs then s.got == c.body && s.answered == |Answer(c, s)| && s.child.status.code == c.ExitCode(s.got)
          else s.answered == 0 && s.child.status.code == 1)
    && (s.parent.Waiting? || s.parent.Closing? || s.parent.Done? ==> s.child.Gone? && s.up == "")
    && (s.parent.Closing? || s.parent.Done? ==> s.parent.code == CodeOf(s.child.status))
    && (!c.execs && !s.child.Gone? ==> s.child.Starting?)
    && (s.child.Gone? && s.child.status.Exit? && c.execs ==> c.counts)
  }

  predicate Inv(c: Config, s: State) { DownInv(c, s) && UpInv(c, s) }

  lemma StepKeepsDown(c: Config, s: State, step: Step)
    requires Inv(c, s) && Enabled(c, s, step)
    ensures DownInv(c, Next(c, s, step))
  {
    var t := Next(c, s, step);
    match step
    case ParentWrites(n) =>
      Assoc(s.got, s.down, c.body[s.written..s.written + n]);
      assert c.body[..t.written] == c.body[..s.written] + c.body[s.written..t.written];
    case ChildReads =>
      assert s.down == s.down[..1] + s.down[1..];
      Assoc(s.got, s.down[..1], s.down[1..]);
    case ChildAnswers =>
      assert s.got + s.down == c.body[..s.written];
      assert |s.got| == |c.body|;
    case _ =>
  }

  lemma StepKeepsUp(c: Config, s: State, step: Step)
    requires Inv(c, s) && Enabled(c, s, step)
    ensures UpInv(c, Next(c, s, step))
  {
    match step
    case ChildWrites(n) => WriteKeepsUp(c, s, n);
    case ParentReads => ReadKeepsUp(c, s);
    case ChildReads => assert Answer(c, s)[..0] == Answer(c, Next(c, s, step))[..0];
    case _ =>
  }

  lemma WriteKeepsUp(c: Config, s: State, n: nat)
    requires Inv(c, s) && Enabled(c, s, ChildWrites(n))
    ensures UpInv(c, Next(c, s, ChildWrites(n)))
  {
    var a, m := Answer(c, s), s.answered + n;
    Assoc(s.received, s.up, a[s.answered..m]);
    assert a[..m] == a[..s.answered] + a[s.answered..m];
  }

  lemma ReadKeepsUp(c: Config, s: State)
    requires Inv(c, s) && Enabled(c, s, ParentReads)
    ensures UpInv(c, Next(c, s, ParentReads))
  {
    assert s.up == s.up[..1] + s.up[1..];
    Assoc(s.received, s.up[..1], s.up[1..]);
  }

  lemma {:induction false} RunKeepsInv(c: Config, s: State, steps: seq<Step>)
    requires Inv(c, s) && Legal(c, s, steps)
    ensures Inv(c, Exec(c, s, steps))
    decreases steps
  {
    if steps != [] {
      StepKeepsDown(c, s, steps[0]);
      StepKeepsUp(c, s, steps[0]);
      RunKeepsInv(c, Next(c, s, steps[0]), steps[1..]);
    }
  }

  lemma InitInv(c: Config, s: State)
    requires c.Valid() && Init(c, s)
    ensures Inv(c, s)
  {
  }

  // ----------------------------------------------------------------- theorems

  /** Whenever the parent is done, it knows how the child ended; a child that
      ran to its end got exactly the body, and the parent has exactly its output. */
  lemma ExchangeIsExact(c: Config, s: State, steps: seq<Step>)
    requires c.Valid() && Init(c, s) && Legal(c, s, steps) && Exec(c, s, steps).parent.Done?
    ensures var t := Exec(c, s, steps);
            && t.child.Gone? && t.parent.code == CodeOf(t.child.status)
            && (t.child.status.Exit? && c.execs ==>
                  && t.got == c.body && t.received == c.Output(c.body)
                  && t.child.status.code == c.ExitCode(c.body))
            && (t.child.status.Exit? && !c.execs ==> t.received == "" && t.parent.code == 400)
            && t.received <= c.Output(t.got)
  {
    InitInv(c, s);
    RunKeepsInv(c, s, steps);
    var t := Exec(c, s, steps);
    var a := Answer(c, t);
    assert t.received + t.up == t.received;
    assert a[..|a|] == a;
  }

  /** What ProcessCgi hands to the answering half. */
  function Outcome(s: State): R.CgiOutcome
    requires s.parent.Done?
  {
    R.CgiOutcome(s.parent.code, s.received)
  }

  /** From the request to the wire: a CGI request for an existing resource is
      answered with success exactly when the program ran to its end on the whole
      body and returned zero; then the reply's body is exactly the program's
      output and its announced length is that output's length. */
  lemma CgiReplyIsProgramOutput(c: Config, s: State, steps: seq<Step>, site: R.Site, uri: string, junk: int)
    requires c.Valid() && Init(c, s) && Legal(c, s, steps) && Exec(c, s, steps).parent.Done?
    requires R.RunsCgi(site, if c.post then "POST" else "GET", uri)
    ensures var t := Exec(c, s, steps);
            var r := R.Respond(site, if c.post then "POST" else "GET", uri, Outcome(t), junk);
            && t.child.Gone?
            && (r.code == R.OK <==> t.child.status == Exit(0))
            && (r.code == R.OK ==>
                  && c.execs && c.ExitCode(c.body) == 0
                  && R.SentBody(site, r) == c.Output(c.body)
                  && R.Advertised(r.lines) == Some(|c.Output(c.body)|))
            && (r.code != R.OK ==> r.code == CodeOf(t.child.status) && !r.cgi)
  {
    ExchangeIsExact(c, s, steps);
    var t := Exec(c, s, steps);
    var m := if c.post then "POST" else "GET";
    var wanted := R.Wanted(m, uri);
    var entered := R.Entered(site, R.Located(wanted.0));
    var r := R.Respond(site, m, uri, Outcome(t), junk);
    assert r == R.Serve(site, entered.0, entered.1, wanted.1, Outcome(t));
    if t.parent.code == R.OK {
      R.HeadersAdvertise(R.Suffix2Desc(R.SuffixOf(entered.0)), |t.received|);
    }
  }

  ghost predicate Stuck(c: Config, s: State) {
    forall step: Step :: !step.ChildCrashes? ==> !Enabled(c, s, step)
  }

  /** Neither side can block the other: with a counting child, or one that is
      already gone, the exchange only stops when the parent is done. */
  lemma StuckMeansDone(c: Config, s: State)
    requires Inv(c, s) && (c.counts || s.child.Gone? || !c.execs) && Stuck(c, s)
    ensures s.parent.Done?
  {
    assert !Enabled(c, s, ChildExecs) && !Enabled(c, s, ChildReads) && !Enabled(c, s, ChildAnswers);
    assert !Enabled(c, s, ParentWrites(1)) && !Enabled(c, s, ParentStopsWriting);
    assert !Enabled(c, s, ParentReads) && !Enabled(c, s, ParentSeesEof) && !Enabled(c, s, ParentReaps);
    assert !Enabled(c, s, ParentCloses);
    assert !Enabled(c, s, ChildWrites(1)) && !Enabled(c, s, ChildExits);
  }

  function Phase(s: State): nat {
    match s.child
    case Starting => 3
    case Consuming => 2
    case Answering => 1
    case Gone(_) => 0
  }

  /** Bytes still to move, counted once per pipe end, and the parent's phases. */
  function Work(c: Config, s: State): int {
    2 * (|c.body| - s.written) + |s.down| + |s.up|
    + (if s.child.Answering? then 2 * (|Answer(c, s)| - s.answered) else 0)
    + (match s.parent case Writing => 4 case Reading => 3 case Waiting => 2 case Closing(_) => 1 case Done(_) => 0)
    + (if s.child.Gone? then 0 else 1)
  }

  lemma StepDecreases(c: Config, s: State, step: Step)
    requires Inv(c, s) && Enabled(c, s, step) && !step.ChildCrashes?
    ensures var t := Next(c, s, step);
            Phase(t) < Phase(s) || (Phase(t) == Phase(s) && 0 <= Work(c, t) < Work(c, s))
  {
    StepKeepsDown(c, s, step);
    StepKeepsUp(c, s, step);
  }

  /** A schedule: while somebody can move, somebody does; then nothing changes. */
  ghost predicate Schedule(c: Config, run: nat -> State, pick: nat -> Step) {
    forall n: nat {:trigger pick(n)} :: Moves(c, run(n), pick(n), run(n + 1))
  }

  ghost predicate Moves(c: Config, s: State, step: Step, t: State) {
    if Stuck(c, s) then t == s else !step.ChildCrashes? && Enabled(c, s, step) && t == Next(c, s, step)
  }

  lemma {:induction false} ScheduleSettles(c: Config, run: nat -> State, pick: nat -> Step, n: nat) returns (m: nat)
    requires Schedule(c, run, pick) && Inv(c, run(n))
    ensures n <= m && Stuck(c, run(m)) && Inv(c, run(m))
    decreases Phase(run(n)), Work(c, run(n))
  {
    if Stuck(c, run(n)) {
      m := n;
    } else {
      assert Moves(c, run(n), pick(n), run(n + 1));
      StepKeepsDown(c, run(n), pick(n));
      StepKeepsUp(c, run(n), pick(n));
      StepDecreases(c, run(n), pick(n));
      m := ScheduleSettles(c, run, pick, n + 1);
    }
  }

  /** For any capacities, any partial writes and any scheduling, also after a
      crash of the child: the exchange with a counting child always finishes. */
  lemma EveryScheduleFinishes(c: Config, s: State, steps: seq<Step>, run: nat -> State, pick: nat -> Step)
    requires c.Valid() && c.counts && Init(c, s) && Legal(c, s, steps)
    requires run(0) == Exec(c, s, steps) && Schedule(c, run, pick)
    ensures exists m: nat :: run(m).parent.Done?
  {
    InitInv(c, s);
    RunKeepsInv(c, s, steps);
    var m := ScheduleSettles(c, run, pick, 0);
    StuckMeansDone(c, run(m));
  }

  /** In every reachable state the parent still has its write end, unless it has
      reaped the child: the child can never see end of file. */
  lemma WriteEndOutlivesChild(c: Config, s: State, steps: seq<Step>)
    requires c.Valid() && Init(c, s) && Legal(c, s, steps)
    ensures var t := Exec(c, s, steps);
            && (!t.downOpen ==> t.child.Gone?)
            && !Enabled(c, t, ChildSeesEof)
  {
    InitInv(c, s);
    RunKeepsInv(c, s, steps);
  }

  /** A child that will read to end of file. */
  predicate WaitsForEof(c: Config, s: State) { !c.counts && c.execs && !s.child.Gone? }

  lemma EofNeverComes(c: Config, s: State, step: Step)
    requires Inv(c, s) && WaitsForEof(c, s) && Enabled(c, s, step) && !step.ChildCrashes?
    ensures WaitsForEof(c, Next(c, s, step)) && !Next(c, s, step).parent.Done?
  {
    assert !s.parent.Done? && s.downOpen;
  }

  /** Counting is necessary: without a crash, a child that reads to end of file
      never lets the parent finish, whatever the two do. */
  lemma {:induction false} ReadingToEofNeverFinishes(c: Config, s: State, steps: seq<Step>)
    requires Inv(c, s) && WaitsForEof(c, s) && Legal(c, s, steps)
    requires forall i | 0 <= i < |steps| :: !steps[i].ChildCrashes?
    ensures !Exec(c, s, steps).parent.Done?
    decreases steps
  {
    if steps != [] {
      StepKeepsDown(c, s, steps[0]);
      StepKeepsUp(c, s, steps[0]);
      EofNeverComes(c, s, steps[0]);
      ReadingToEofNeverFinishes(c, Next(c, s, steps[0]), steps[1..]);
    }
  }

  lemma {:induction false} WaitingGoesOn(c: Config, run: nat -> State, pick: nat -> Step, m: nat)
    requires Schedule(c, run, pick) && Inv(c, run(0)) && WaitsForEof(c, run(0))
    ensures Inv(c, run(m)) && WaitsForEof(c, run(m)) && !run(m).parent.Done?
  {
    if m > 0 {
      var n: nat := m - 1;
      WaitingGoesOn(c, run, pick, n);
      assert Moves(c, run(n), pick(n), run(n + 1));
      if !Stuck(c, run(n)) {
        StepKeepsDown(c, run(n), pick(n));
        StepKeepsUp(c, run(n), pick(n));
        EofNeverComes(c, run(n), pick(n));
      }
    }
  }

  /** From any reachable state, without a further crash, a schedule lets the
      parent finish if and only if the child counts its input, or does not exec,
      or is already gone: the parent closes its end only after waiting for the
      child, so a child that reads to end of file keeps both waiting. */
  lemma FinishesExactly(c: Config, s: State, steps: seq<Step>, run: nat -> State, pick: nat -> Step)
    requires c.Valid() && Init(c, s) && Legal(c, s, steps)
    requires run(0) == Exec(c, s, steps) && Schedule(c, run, pick)
    ensures (exists m: nat :: run(m).parent.Done?) <==> c.counts || !c.execs || run(0).child.Gone?
  {
    InitInv(c, s);
    RunKeepsInv(c, s, steps);
    if WaitsForEof(c, run(0)) {
      forall m: nat
        ensures !run(m).parent.Done?
      {
        WaitingGoesOn(c, run, pick, m);
      }
    } else {
      var m := ScheduleSettles(c, run, pick, 0);
      if !c.counts && c.execs {
        GoneStays(c, run, pick, m);
      }
      StuckMeansDone(c, run(m));
    }
  }

  lemma {:induction false} GoneStays(c: Config, run: nat -> State, pick: nat -> Step, m: nat)
    requires Schedule(c, run, pick) && run(0).child.Gone?
    ensures run(m).child.Gone?
  {
    if m > 0 {
      var n: nat := m - 1;
      GoneStays(c, run, pick, n);
      assert Moves(c, run(n), pick(n), run(n + 1));
    }
  }

  lemma ExecCons(c: Config, s: State, step: Step, rest: seq<Step>)
    requires Enabled(c, s, step) && Legal(c, Next(c, s, step), rest)
    ensures Legal(c, s, [step] + rest) && Exec(c, s, [step] + rest) == Exec(c, Next(c, s, step), rest)
  {
    assert ([step] + rest)[1..] == rest;
  }

  /** A run that hangs: the child has read the whole body of one byte and waits
      for an end of file that only comes once it is gone. */
  lemma EofChildHangs(c: Config, s: State)
    requires c.Valid() && c.post && c.body == "a" && c.execs && !c.counts && Init(c, s)
    ensures var run := [ChildExecs] + ([ParentWrites(1)] + ([ParentStopsWriting] + ([ChildReads] + [])));
            && Legal(c, s, run) && Stuck(c, Exec(c, s, run))
            && Exec(c, s, run).got == c.body && Exec(c, s, run).parent.Reading?
  {
    var s1 := Next(c, s, ChildExecs);
    var s2 := Next(c, s1, ParentWrites(1));
    var s3 := Next(c, s2, ParentStopsWriting);
    var s4 := Next(c, s3, ChildReads);
    ExecCons(c, s3, ChildReads, []);
    ExecCons(c, s2, ParentStopsWriting, [ChildReads] + []);
    ExecCons(c, s1, ParentWrites(1), [ParentStopsWriting] + ([ChildReads] + []));
    ExecCons(c, s, ChildExecs, [ParentWrites(1)] + ([ParentStopsWriting] + ([ChildReads] + [])));
    assert s2.down == "a" && s4.down == "" && s4.got == "a";
  }

  // --------------------------------------------------- the child's read loop

  /** What n reads into one variable see: past the end of the input its last
      byte again, or the initial zero when there was none. */
  function Stretched(all: string, n: nat): (r: string)
    ensures |r| == n
  {
    if n <= |all| then all[..n]
    else all + seq(n - |all|, _ => if all == "" then 0 as char else all[|all| - 1])
  }

  lemma StretchOne(all: string, n: nat)
    ensures Stretched(all, n + 1)
            == Stretched(all, n) + [if n < |all| then all[n] else if all == "" then 0 as char else all[|all| - 1]]
  {
  }

  /** What the child reads is a piece of its input if and only if the input has
      as many bytes as were announced. */
  lemma DeliveredExactly(all: string, n: nat)
    ensures Stretched(all, n) <= all <==> n <= |all|
    ensures n > |all| ==> Stretched(all, n)[..|all|] == all && Stretched(all, n) != all
    ensures forall i | |all| <= i < n ::
              Stretched(all, n)[i] == if all == "" then 0 as char else all[|all| - 1]
  {
  }

  /** Three bytes announced and two there: the second is read twice. */
  lemma LastByteRepeats()
    ensures Stretched("ab", 3) == "abb" && Stretched("", 1) == [0 as char]
  {
  }

  /** GetQueryString after its environment was read. A read that meets end of
      file leaves the last byte in place, and that byte is appended again. */
  method GetQueryString(methodEnv: string, queryEnv: string, lengthEnv: string, stdin: Socket, before: string)
    returns (ok: bool, query: string)
    requires methodEnv == "POST" ==> Atoi(lengthEnv) >= 0
    modifies stdin
    ensures ok <==> methodEnv == "GET" || methodEnv == "POST"
    ensures methodEnv == "GET" ==> query == queryEnv
    ensures methodEnv == "POST" ==>
              && query == before + Stretched(old(stdin.incoming), Atoi(lengthEnv))
              && stdin.incoming == if Atoi(lengthEnv) <= |old(stdin.incoming)|
                                   then old(stdin.incoming)[Atoi(lengthEnv)..] else ""
    ensures methodEnv != "POST" ==> stdin.incoming == old(stdin.incoming)
    ensures !ok ==> query == before
  {
    query := before;
    ok := false;
    if methodEnv == "GET" {
      return true, queryEnv;
    } else if methodEnv == "POST" {
      var contentLength := Atoi(lengthEnv);
      var c := 0 as char;
      ghost var all := stdin.incoming;
      ghost var n := 0;
      while contentLength != 0
        invariant 0 <= contentLength && contentLength + n == Atoi(lengthEnv) && n >= 0
        invariant query == before + Stretched(all, n)
        invariant stdin.incoming == if n <= |all| then all[n..] else ""
        invariant n > 0 ==> c == if n <= |all| then all[n - 1] else if all == "" then 0 as char else all[|all| - 1]
        invariant n == 0 ==> c == 0 as char
        decreases contentLength
      {
        ghost var rest := stdin.incoming;
        var s;
        s, c := stdin.Recv(c);
        query := query + [c];
        contentLength := contentLength - 1;
        if n < |all| {
          assert rest == all[n..] && rest[0] == c && stdin.incoming == rest[1..];
        }
        StretchOne(all, n);
        Assoc(before, Stretched(all, n), [c]);
        n := n + 1;
      }
      ok := true;
    } else {
      ok := false;
    }
  }
}
