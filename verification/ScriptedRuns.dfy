/** Infinite runs of http/logs/looper.hpp in which each step is a function of the
    state, and how one shows that such a run is fair. */
module ScriptedRuns {
  import opened Text
  import opened LooperModel
  import opened LooperLiveness
  import opened Fairness

  type Script = State -> Step

  function Follow(script: Script, s: State): State {
    if Enabled(s, script(s)) then Next(s, script(s)) else s
  }

  function ScriptRun(script: Script, t: State, n: nat): State {
    if n == 0 then t else Follow(script, ScriptRun(script, t, n - 1))
  }

  ghost predicate Follows(script: Script, run: nat -> State, pick: nat -> Turn) {
    forall n: nat {:trigger pick(n)} ::
      pick(n) == Some(script(run(n))) && run(n + 1) == Follow(script, run(n))
  }

  lemma Scripted(script: Script, t: State) returns (run: nat -> State, pick: nat -> Turn)
    ensures run(0) == t && Follows(script, run, pick)
  {
    run := (n: nat) => ScriptRun(script, t, n);
    pick := (n: nat) => Some(script(ScriptRun(script, t, n)));
  }

  /** From a state of the round the script can take its step, and stays in the
      round. */
  ghost predicate Rounds(script: Script, round: State -> bool) {
    forall s: State {:trigger script(s)} | round(s) :: Enabled(s, script(s)) && round(Next(s, script(s)))
  }

  lemma {:induction false} InRound(script: Script, round: State -> bool, run: nat -> State, pick: nat -> Turn, n: nat)
    requires Rounds(script, round) && Follows(script, run, pick) && round(run(0))
    ensures round(run(n))
  {
    if n > 0 {
      var m: nat := n - 1;
      InRound(script, round, run, pick, m);
      assert pick(m) == Some(script(run(m)));
    }
  }

  lemma FollowingGoes(script: Script, round: State -> bool, run: nat -> State, pick: nat -> Turn)
    requires Rounds(script, round) && Follows(script, run, pick) && round(run(0))
    ensures Run(run, pick)
  {
    forall n: nat {:trigger pick(n)}
      ensures Goes(run(n), pick(n), run(n + 1))
    {
      InRound(script, round, run, pick, n);
      assert pick(n) == Some(script(run(n)));
    }
  }

  /** While the script takes other steps, it comes closer to taking this one. */
  ghost predicate Toward(script: Script, round: State -> bool, step: Step, major: State -> nat, minor: State -> nat) {
    forall s: State {:trigger script(s)} | round(s) && script(s) != step && Enabled(s, script(s)) ::
      var t := Next(s, script(s));
      major(t) < major(s) || (major(t) == major(s) && minor(t) < minor(s))
  }

  lemma {:induction false} StepComes(script: Script, round: State -> bool, run: nat -> State, pick: nat -> Turn,
                                     step: Step, major: State -> nat, minor: State -> nat, n: nat) returns (m: nat)
    requires Rounds(script, round) && Follows(script, run, pick) && round(run(0))
    requires Toward(script, round, step, major, minor)
    ensures n <= m && pick(m) == Some(step)
    decreases major(run(n)), minor(run(n))
  {
    InRound(script, round, run, pick, n);
    assert pick(n) == Some(script(run(n)));
    m := n;
    if script(run(n)) != step {
      m := StepComes(script, round, run, pick, step, major, minor, n + 1);
    }
  }

  /** A thread whose step comes again and again is treated fairly. */
  lemma FairToTaken(script: Script, round: State -> bool, run: nat -> State, pick: nat -> Turn,
                    step: Step, major: State -> nat, minor: State -> nat, mine: Step -> bool, can: State -> bool)
    requires Rounds(script, round) && Follows(script, run, pick) && round(run(0))
    requires Toward(script, round, step, major, minor) && mine(step)
    ensures Fair(run, pick, mine, can)
  {
    forall n: nat
      ensures TakenFrom(pick, mine, n)
    {
      var m := StepComes(script, round, run, pick, step, major, minor, n);
      assert IsMine(pick(m), mine);
    }
  }

  /** So is one that cannot move in the whole round. */
  lemma FairToResting(script: Script, round: State -> bool, run: nat -> State, pick: nat -> Turn,
                      mine: Step -> bool, can: State -> bool)
    requires Rounds(script, round) && Follows(script, run, pick) && round(run(0))
    requires forall s: State | round(s) :: !can(s)
    ensures Fair(run, pick, mine, can)
  {
    forall k: nat
      ensures !can(run(k))
    {
      InRound(script, round, run, pick, k);
    }
    SittingOutIsFair(run, pick, mine, can);
  }
}
