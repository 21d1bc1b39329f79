/** Infinite runs of a step system in which some thread may move at every moment. */
module Fairness {
  import opened Text

  /** From moment n on some turn is one of these steps. */
  ghost predicate TakenFrom<T(!new)>(pick: nat -> Option<T>, mine: T -> bool, n: nat) {
    exists m: nat :: n <= m && IsMine(pick(m), mine)
  }

  predicate IsMine<T>(turn: Option<T>, mine: T -> bool) { turn.Some? && mine(turn.value) }

  ghost predicate NeverFrom<S(!new)>(run: nat -> S, can: S -> bool, n: nat) {
    forall k: nat :: n <= k ==> !can(run(k))
  }

  /** Strong fairness: a thread that can move again and again does move. */
  ghost predicate Fair<S(!new), T(!new)>(run: nat -> S, pick: nat -> Option<T>, mine: T -> bool, can: S -> bool) {
    forall n: nat {:trigger TakenFrom(pick, mine, n)} ::
      TakenFrom(pick, mine, n) || exists m: nat :: n <= m && NeverFrom(run, can, m)
  }

  /** The next turn of a thread, or the moment from which it can never move. */
  lemma NextTurn<S(!new), T(!new)>(run: nat -> S, pick: nat -> Option<T>, mine: T -> bool, can: S -> bool, n: nat)
    returns (taken: bool, m: nat)
    requires Fair(run, pick, mine, can)
    ensures n <= m
    ensures taken ==> IsMine(pick(m), mine) && forall k: nat | n <= k < m :: !IsMine(pick(k), mine)
    ensures !taken ==> NeverFrom(run, can, m) && forall k: nat | n <= k :: !IsMine(pick(k), mine)
  {
    taken := TakenFrom(pick, mine, n);
    if taken {
      var last: nat :| n <= last && IsMine(pick(last), mine);
      m := n;
      while !IsMine(pick(m), mine)
        invariant n <= m <= last && forall k: nat | n <= k < m :: !IsMine(pick(k), mine)
        decreases last - m
      {
        m := m + 1;
      }
    } else {
      m :| n <= m && NeverFrom(run, can, m);
    }
  }

  /** Who can never move need not. */
  lemma SittingOutIsFair<S(!new), T(!new)>(run: nat -> S, pick: nat -> Option<T>, mine: T -> bool, can: S -> bool)
    requires forall k: nat :: !can(run(k))
    ensures Fair(run, pick, mine, can)
  {
    forall n: nat {:trigger TakenFrom(pick, mine, n)}
      ensures TakenFrom(pick, mine, n) || exists m: nat :: n <= m && NeverFrom(run, can, m)
    {
      assert NeverFrom(run, can, n);
    }
  }
}
