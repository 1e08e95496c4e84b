/** Runs of a transition system: invariants of every run, and arrival under weak fairness. */
module Runs {

  ghost predicate Kept<S(!new)>(P: S -> bool, R: (S, S) -> bool) {
    forall s, t :: P(s) && R(s, t) ==> P(t)
  }

  /** A finite run. */
  ghost predicate Follows<S(!new)>(run: seq<S>, R: (S, S) -> bool) {
    forall i :: 0 <= i < |run| - 1 ==> R(run[i], run[i + 1])
  }

  lemma FollowsFrom<S(!new)>(s: S, run: seq<S>, R: (S, S) -> bool)
    requires run != [] && Follows(run, R) && R(s, run[0])
    ensures Follows([s] + run, R)
  {
    var longer := [s] + run;
    forall i | 0 <= i < |longer| - 1 ensures R(longer[i], longer[i + 1]) {
      if i > 0 { assert R(run[i - 1], run[i - 1 + 1]); }
    }
  }

  lemma {:induction false} Always<S(!new)>(run: seq<S>, i: nat, P: S -> bool, R: (S, S) -> bool)
    requires i < |run| && P(run[0]) && Follows(run, R) && Kept(P, R)
    ensures P(run[i])
  {
    if i > 0 {
      Always(run, i - 1, P, R);
      assert R(run[i - 1], run[i - 1 + 1]);
    }
  }

  /** An endless run, in which a state may repeat while nothing happens. */
  ghost predicate FollowsForever<S(!new)>(f: nat -> S, R: (S, S) -> bool) {
    forall i: nat {:trigger f(i + 1)} :: f(i + 1) == f(i) || R(f(i), f(i + 1))
  }

  lemma {:induction false} AlwaysForever<S(!new)>(f: nat -> S, i: nat, P: S -> bool, R: (S, S) -> bool)
    requires P(f(0)) && FollowsForever(f, R) && Kept(P, R)
    ensures P(f(i))
  {
    if i > 0 {
      var k: nat := i - 1;
      AlwaysForever(f, k, P, R);
      assert f(k + 1) == f(k) || R(f(k), f(k + 1));
    }
  }

  ghost predicate NeverRises<S(!new)>(rank: S -> int, P: S -> bool, R: (S, S) -> bool) {
    forall s, t :: P(s) && R(s, t) ==> rank(t) <= rank(s)
  }

  lemma {:induction false} RankFalls<S(!new)>(f: nat -> S, i: nat, j: nat, rank: S -> int, P: S -> bool,
                                       R: (S, S) -> bool)
    requires P(f(0)) && FollowsForever(f, R) && Kept(P, R) && NeverRises(rank, P, R) && i <= j
    ensures rank(f(j)) <= rank(f(i))
    decreases j
  {
    if i < j {
      var k: nat := j - 1;
      RankFalls(f, i, k, rank, P, R);
      AlwaysForever(f, k, P, R);
      assert f(k + 1) == f(k) || R(f(k), f(k + 1));
    }
  }

  ghost predicate EnabledFrom<S(!new)>(f: nat -> S, i: nat, enabled: S -> bool) {
    forall j: nat :: j >= i ==> enabled(f(j))
  }

  ghost predicate MovesAfter<S(!new)>(f: nat -> S, i: nat, move: (S, S) -> bool) {
    exists j: nat {:trigger f(j + 1)} :: j >= i && move(f(j), f(j + 1))
  }

  /** Weak fairness: a move that stays possible is made. */
  ghost predicate Fair<S(!new)>(f: nat -> S, enabled: S -> bool, move: (S, S) -> bool) {
    forall i: nat :: EnabledFrom(f, i, enabled) ==> MovesAfter(f, i, move)
  }

  ghost predicate Eventually<S(!new)>(f: nat -> S, i: nat, goal: S -> bool) {
    exists k: nat :: k >= i && goal(f(k))
  }

  /** P holds throughout the endless run f. */
  ghost predicate Invariantly<S(!new)>(f: nat -> S, P: S -> bool, R: (S, S) -> bool) {
    P(f(0)) && FollowsForever(f, R) && Kept(P, R)
  }

  /** Short of the goal the move is possible, and making it lowers the rank, which nothing raises. */
  ghost predicate Descends<S(!new)>(P: S -> bool, R: (S, S) -> bool, rank: S -> int, enabled: S -> bool,
                                    move: (S, S) -> bool, goal: S -> bool) {
    && NeverRises(rank, P, R)
    && (forall s :: P(s) ==> rank(s) >= 0 && (goal(s) || enabled(s)))
    && (forall s, t :: P(s) && move(s, t) ==> rank(t) < rank(s))
  }

  /** If the move is always possible short of the goal and each move brings it closer, a fair run
      reaches the goal. */
  lemma {:induction false} Arrives<S(!new)>(f: nat -> S, i: nat, P: S -> bool, R: (S, S) -> bool, rank: S -> int,
                                            enabled: S -> bool, move: (S, S) -> bool, goal: S -> bool)
    requires Invariantly(f, P, R) && Fair(f, enabled, move) && Descends(P, R, rank, enabled, move, goal)
    ensures Eventually(f, i, goal)
    decreases rank(f(i))
  {
    if forall k: nat :: k >= i ==> !goal(f(k)) {
      forall k: nat | k >= i ensures enabled(f(k)) { AlwaysForever(f, k, P, R); }
      assert EnabledFrom(f, i, enabled);
      var k: nat :| k >= i && move(f(k), f(k + 1));
      AlwaysForever(f, k, P, R);
      AlwaysForever(f, k + 1, P, R);
      RankFalls(f, i, k, rank, P, R);
      Arrives(f, k + 1, P, R, rank, enabled, move, goal);
    }
  }
}
