/** Scenarios that show which hypotheses of the other theorems cannot be dropped. */
module RunnerWitnesses {
  import opened RunnerModel
  import opened RunnerSafety
  import opened RunnerOnce
  import opened RunnerCoverage
  import opened RunnerTurns
  import opened RunnerDryStarts
  import opened RunnerDryOnce

  function DryRun(tests: seq<Test>): Env {
    Env(tests, true, true, (n: nat) => Yes, (n: nat) => 0)
  }

  // ----- A chain of two start_post_init edges -----

  function Chain(): Env {
    DryRun([Test(1, 0, 0, map[]), Test(1, 0, 0, map[StartPostInit := 0]), Test(1, 0, 0, map[StartPostInit := 1])])
  }

  lemma {:induction false} ChainEndsEarly(n: nat)
    ensures Predictable(Chain()) && !ReachedBy(Chain(), 2, n)
  {
  }

  /** The third test of the chain is never submitted, however long the dry run is watched. */
  lemma ThirdOfChainNeverStarts(rounds: nat)
    ensures !Started(Run(Chain(), rounds).log, 2)
  {
    ChainEndsEarly(0);
    if Started(Run(Chain(), rounds).log, 2) {
      OnlyReachedStart(Chain(), rounds, 2);
      var n: nat :| ReachedBy(Chain(), 2, n);
      ChainEndsEarly(n);
    }
  }

  // ----- Turns of a run -----

  lemma Beginning(env: Env)
    ensures Run(env, 0) == SubmitRoots(env, Fresh(env), 0)
  {
  }

  /** The next turn, when something is listed. */
  lemma NextTurn(env: Env, n: nat, t: nat)
    requires Dry(env) && Clean(env, Run(env, n)) && Live(Run(env, n), t)
    ensures AllTurned(env, Run(env, n), Run(env, n + 1))
  {
    OneMoreRound(env, SubmitRoots(env, Fresh(env), 0), n);
    RoundTurns(env, Run(env, n));
  }

  // ----- A dependent that finishes before its start_post_init dependency -----

  /** A scenario of two tests, the second one waiting for the first to be up. */
  predicate IsPair(env: Env, first: Test, second: Test) {
    env.dryRun && env.tests == [first, second] && first.deps == map[] && second.deps == map[StartPostInit := 0]
    && first.step <= 0 && second.step <= 0
  }

  /** The first test has two more iterations than the second, which begins with its last one. */
  predicate ShortDependent(env: Env) {
    IsPair(env, Test(3, 0, 0, map[]), Test(1, 0, 0, map[StartPostInit := 0]))
  }

  lemma ShortBegins(env: Env)
    requires ShortDependent(env)
    ensures var s := Run(env, 0); Clean(env, s) && Live(s, 0) && !Live(s, 1) && Times(s, 1) == [] && s.iters == [0, 0]
  {
    Beginning(env);
    RootsBegin(env, 0);
    RootsBegin(env, 1);
  }

  /** In a turn that begins with the first test alone, the second one starts and is gone. */
  lemma ShortTurn(env: Env, s: State, r: State)
    requires ShortDependent(env) && Clean(env, s) && Live(s, 0) && !Live(s, 1) && s.iters[0] < 2 && s.iters[1] == 0
    requires AllTurned(env, s, r)
    ensures Live(r, 0) && !Live(r, 1) && Times(r, 1) == Times(s, 1) + [0] && r.iters[0] == s.iters[0] + 1 && r.iters[1] == 0
  {
    assert Turned(env, s, r, 0) && Turned(env, s, r, 1);
  }

  /** A dependent that has finished is submitted again, with the same iteration, while the test it waits for
      is live. */
  lemma DependentIsResubmitted(env: Env)
    requires ShortDependent(env)
    ensures Gone(Run(env, 1), 1) && Iterations(Run(env, 1).log, 1) == [0]
    ensures Live(Run(env, 1), 0) && Live(Run(env, 2), 0) && Iterations(Run(env, 2).log, 1) == [0, 0]
  {
    ShortBegins(env);
    NextTurn(env, 0, 0);
    ShortTurn(env, Run(env, 0), Run(env, 1));
    NextTurn(env, 1, 0);
    ShortTurn(env, Run(env, 1), Run(env, 2));
    assert Times(Run(env, 1), 1) == [0] && Times(Run(env, 2), 1) == [0] + [0];
  }

  // ----- A dependent that lasts as long -----

  /** With one iteration each, the same two tests are submitted once: nothing but lengths decides. */
  lemma EqualPairSubmitsOnce(env: Env, rounds: nat)
    requires IsPair(env, Test(1, 0, 0, map[]), Test(1, 0, 0, map[StartPostInit := 0])) && EndedNormally(Run(env, rounds))
    ensures SubmitsOnce(env, Run(env, rounds).log)
    ensures Iterations(Run(env, rounds).log, 0) == [0] && Iterations(Run(env, rounds).log, 1) == [0]
  {
    assert Plain(env) && AllOutlast(env);
    DryRunSubmitsOnceIff(env, rounds);
    assert ReachedBy(env, 0, 0) && ReachedBy(env, 1, 1);
    RangeStart(0);
  }

  // ----- A cycle of start edges -----

  /** Test 1 starts when test 0 is up and whenever test 2 completes, test 2 whenever test 1 completes. */
  predicate Cycle(env: Env) {
    env.dryRun && env.tests == [Test(1, 0, 0, map[]), Test(1, 0, 0, map[StartPostInit := 0, StartPostComp := 2]),
                                Test(1, 0, 0, map[StartPostComp := 1])]
  }

  /** Test `t` alone is listed. */
  predicate Alone(env: Env, s: State, t: nat) {
    Clean(env, s) && s.iters == [0, 0, 0] && forall u: nat | u < 3 :: Live(s, u) <==> u == t
  }

  /** After test 0 comes test 2, and then tests 1 and 2 take turns. */
  lemma CycleTurn(env: Env, s: State, r: State, t: nat)
    requires Cycle(env) && t < 3 && Alone(env, s, t) && AllTurned(env, s, r)
    ensures Alone(env, r, if t == 2 then 1 else 2)
  {
    assert Turned(env, s, r, 0) && Turned(env, s, r, 1) && Turned(env, s, r, 2);
  }

  lemma {:induction false} CycleGoesOn(env: Env, rounds: nat) returns (t: nat)
    requires Cycle(env)
    ensures t < 3 && Alone(env, Run(env, rounds), t)
    decreases rounds
  {
    if rounds == 0 {
      Beginning(env);
      RootsBegin(env, 0);
      RootsBegin(env, 1);
      RootsBegin(env, 2);
      t := 0;
    } else {
      t := CycleGoesOn(env, rounds - 1);
      NextTurn(env, rounds - 1, t);
      CycleTurn(env, Run(env, rounds - 1), Run(env, rounds), t);
      t := if t == 2 then 1 else 2;
    }
  }

  /** A cycle of start edges can keep a dry run going for ever. */
  lemma CycleRunsForever(env: Env, rounds: nat)
    requires Cycle(env)
    ensures Run(env, rounds).queue != []
  {
    var t := CycleGoesOn(env, rounds);
    assert Live(Run(env, rounds), t);
  }
}
