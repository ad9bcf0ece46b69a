/** Which tests a dry run starts.  In a dry run everything that is listed completes within the same
    turn, so a test that is started by the polling pass and has one iteration is gone before the
    next pass can poll it: tests waiting for it to be up never start. */
module RunnerDryStarts {
  import opened RunnerModel
  import opened RunnerOnce
  import opened RunnerCoverage
  import opened RunnerTurns

  /** Some test waits for `a` to be up. */
  predicate Awaited(env: Env, a: nat) {
    exists t | 0 <= t < |env.tests| :: DependsOn(env.tests[t], StartPostInit, a)
  }

  /** Some turn of the loop begins with the test on the list, if it is started at all. */
  predicate Lingers(test: Test) {
    StartPostInit !in test.deps || test.iterations > test.first + 1
  }

  /** The order inside a turn decides nothing: a test in the middle of a chain of start_post_init edges
      is not killed before its second iteration, and does not wait for a completion as well when it has
      only one. */
  ghost predicate Predictable(env: Env) {
    && Dry(env)
    && forall a | 0 <= a < |env.tests| && Awaited(env, a) && StartPostInit in env.tests[a].deps ::
         if Lingers(env.tests[a]) then Steady(env, a) else StartPostComp !in env.tests[a].deps
  }

  /** Follow up to `n` start edges from a root; an edge from a test that does not linger is dead when it
      waits for that test to be up. */
  predicate ReachedBy(env: Env, t: nat, n: nat)
    requires WellFormed(env) && t < |env.tests|
    decreases n
  {
    var deps := env.tests[t].deps;
    || IsRoot(env.tests[t])
    || (n > 0 && StartPostComp in deps && ReachedBy(env, deps[StartPostComp], n - 1))
    || (n > 0 && StartPostInit in deps && Lingers(env.tests[deps[StartPostInit]]) && ReachedBy(env, deps[StartPostInit], n - 1))
  }

  /** The exact condition. */
  ghost predicate Reached(env: Env, t: nat)
    requires WellFormed(env) && t < |env.tests|
  {
    exists n: nat :: ReachedBy(env, t, n)
  }

  lemma ReachedNext(env: Env, t: nat, kind: DepKind)
    requires WellFormed(env) && t < |env.tests| && kind in env.tests[t].deps && kind != EndPostComp
    requires Reached(env, env.tests[t].deps[kind])
    requires kind == StartPostInit ==> Lingers(env.tests[env.tests[t].deps[kind]])
    ensures Reached(env, t)
  {
    var n: nat :| ReachedBy(env, env.tests[t].deps[kind], n);
    assert ReachedBy(env, t, n + 1);
  }

  // ----- The invariant -----

  /** At the top of the loop: what is listed lingers, what has begun was reached, and a lingering test that
      has begun is listed or has been polled. */
  ghost predicate OnTop(env: Env, s: State, t: nat)
    requires WellFormed(env) && InScenario(env, s) && t < |env.tests|
  {
    var deps := env.tests[t].deps;
    && (Live(s, t) ==> Begun(s, t))
    && (Live(s, t) && Awaited(env, t) ==> Lingers(env.tests[t]))
    && (Begun(s, t) ==> Reached(env, t))
    && s.iters[t] >= env.tests[t].first && (!Begun(s, t) ==> s.iters[t] == env.tests[t].first)
    && (StartPostInit in deps && Begun(s, deps[StartPostInit]) && Lingers(env.tests[deps[StartPostInit]])
        ==> Live(s, deps[StartPostInit]) || Begun(s, t))
  }

  ghost predicate AllOnTop(env: Env, s: State) {
    Predictable(env) && Clean(env, s) && forall t: nat | t < |env.tests| :: OnTop(env, s, t)
  }

  lemma UpIsReached(env: Env, s: State, t: nat)
    requires AllOnTop(env, s) && t < |env.tests| && Up(env, s, t)
    ensures Reached(env, t)
  {
    assert OnTop(env, s, t);
    if !Live(s, t) {
      var a := env.tests[t].deps[StartPostInit];
      assert OnTop(env, s, a);
      assert DependsOn(env.tests[t], StartPostInit, a);
      ReachedNext(env, t, StartPostInit);
    }
  }

  /** Everything about `t` but its relation to the test that it waits for. */
  lemma TurnOnTop(env: Env, s: State, r: State, t: nat)
    requires AllOnTop(env, s) && AllTurned(env, s, r) && t < |env.tests|
    ensures Live(r, t) ==> Begun(r, t)
    ensures Live(r, t) && Awaited(env, t) ==> Lingers(env.tests[t])
    ensures Begun(s, t) || Up(env, s, t) ==> Begun(r, t)
    ensures Begun(r, t) ==> Reached(env, t)
    ensures r.iters[t] >= env.tests[t].first && (!Begun(r, t) ==> r.iters[t] == env.tests[t].first)
    ensures Begun(r, t) && Lingers(env.tests[t]) && Awaited(env, t) ==> Live(r, t) || Begun(s, t)
  {
    assert OnTop(env, s, t) && Turned(env, s, r, t);
    if Up(env, s, t) {
      UpIsReached(env, s, t);
    } else if Freed(env, s, t, false) {
      UpIsReached(env, s, env.tests[t].deps[StartPostComp]);
      ReachedNext(env, t, StartPostComp);
    }
  }

  lemma RoundOnTop(env: Env, s: State)
    requires AllOnTop(env, s)
    ensures AllOnTop(env, Round(env, s))
  {
    var r := Round(env, s);
    RoundTurns(env, s);
    forall t: nat | t < |env.tests| ensures OnTop(env, r, t) {
      TurnOnTop(env, s, r, t);
      assert OnTop(env, s, t);
      if StartPostInit in env.tests[t].deps {
        var a := env.tests[t].deps[StartPostInit];
        TurnOnTop(env, s, r, a);
        assert OnTop(env, s, a);
        assert DependsOn(env.tests[t], StartPostInit, a);
      }
    }
  }

  lemma {:induction false} RoundsOnTop(env: Env, s: State, rounds: nat)
    requires AllOnTop(env, s)
    ensures AllOnTop(env, Rounds(env, s, rounds))
    decreases rounds
  {
    if rounds > 0 && s.queue != [] {
      RoundOnTop(env, s);
      RoundsOnTop(env, Round(env, s), rounds - 1);
    }
  }

  lemma RunOnTop(env: Env, rounds: nat)
    requires Predictable(env)
    ensures AllOnTop(env, Run(env, rounds))
  {
    var s := SubmitRoots(env, Fresh(env), 0);
    SubmitRootsStarts(env, Fresh(env), 0);
    forall t: nat | t < |env.tests| ensures OnTop(env, s, t) {
      RootsBegin(env, t);
      assert IsRoot(env.tests[t]) ==> ReachedBy(env, t, 0);
      if StartPostInit in env.tests[t].deps {
        RootsBegin(env, env.tests[t].deps[StartPostInit]);
      }
    }
    RoundsOnTop(env, s, rounds);
  }

  // ----- The characterization -----

  /** However long the run is watched, only reached tests start. */
  lemma OnlyReachedStart(env: Env, rounds: nat, t: nat)
    requires Predictable(env) && t < |env.tests| && Started(Run(env, rounds).log, t)
    ensures Reached(env, t)
  {
    RunOnTop(env, rounds);
    BegunIsStarted(Run(env, rounds), t);
    assert OnTop(env, Run(env, rounds), t);
  }

  lemma {:induction false} ReachedStarts(env: Env, rounds: nat, t: nat, n: nat)
    requires Predictable(env) && EndedNormally(Run(env, rounds)) && t < |env.tests| && ReachedBy(env, t, n)
    ensures Started(Run(env, rounds).log, t)
    decreases n
  {
    var r, deps := Run(env, rounds), env.tests[t].deps;
    NoStartIsMissed(env, rounds, t);
    if IsRoot(env.tests[t]) {
    } else if StartPostComp in deps && ReachedBy(env, deps[StartPostComp], n - 1) {
      ReachedStarts(env, rounds, deps[StartPostComp], n - 1);
      NoStartIsMissed(env, rounds, deps[StartPostComp]);
    } else {
      var a := deps[StartPostInit];
      ReachedStarts(env, rounds, a, n - 1);
      RunOnTop(env, rounds);
      BegunIsStarted(r, a);
      BegunIsStarted(r, t);
      assert OnTop(env, r, t);
    }
  }

  /** A dry run starts exactly the reached tests. */
  lemma DryRunStartsExactly(env: Env, rounds: nat, t: nat)
    requires Predictable(env) && EndedNormally(Run(env, rounds)) && t < |env.tests|
    ensures Started(Run(env, rounds).log, t) <==> Reached(env, t)
  {
    if Started(Run(env, rounds).log, t) {
      OnlyReachedStart(env, rounds, t);
    }
    if n: nat :| ReachedBy(env, t, n) {
      ReachedStarts(env, rounds, t, n);
    }
  }
}
