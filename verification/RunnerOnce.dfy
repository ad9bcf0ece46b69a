/** What the legality of a log implies about starts and repetitions, and when every test runs. */
module RunnerOnce {
  import opened RunnerModel
  import opened RunnerSafety

  // ----- Why a test was first started -----

  predicate Started(log: seq<Event>, t: nat) {
    exists p | 0 <= p < |log| :: log[p].Submitted? && log[p].test == t
  }

  predicate Finished(env: Env, log: seq<Event>, t: nat) {
    exists p | 0 <= p < |log| :: FinalCompletion(env, log[p], t)
  }

  lemma {:induction false} LegalPrefix(env: Env, log: seq<Event>, p: nat)
    requires Legal(env, log) && p < |log|
    ensures Legal(env, log[..p]) && MayHappen(env, log[..p], log[p])
    decreases |log|
  {
    if p < |log| - 1 {
      LegalPrefix(env, log[..|log| - 1], p);
      assert log[..|log| - 1][..p] == log[..p];
    }
  }

  lemma {:induction false} LiveWasStarted(log: seq<Event>, t: nat)
    requires LiveIn(log, t)
    ensures Started(log, t)
    decreases |log|
  {
    var e := log[|log| - 1];
    if e.Submitted? && e.test == t {
    } else {
      LiveWasStarted(log[..|log| - 1], t);
      StartedPrefix(log, |log| - 1, t);
    }
  }

  lemma StartedPrefix(log: seq<Event>, p: nat, t: nat)
    requires p <= |log| && Started(log[..p], t)
    ensures Started(log, t)
  {
    var q :| 0 <= q < p && log[..p][q].Submitted? && log[..p][q].test == t;
    assert log[q].Submitted? && log[q].test == t;
  }

  lemma {:induction false} JustFinishedWitness(env: Env, log: seq<Event>, a: nat) returns (q: nat)
    requires JustFinished(env, log, a)
    ensures q < |log| && FinalCompletion(env, log[q], a)
    ensures forall r | q < r < |log| :: log[r].Submitted? || log[r].Killed?
    decreases |log|
  {
    var e := log[|log| - 1];
    if FinalCompletion(env, e, a) {
      q := |log| - 1;
    } else {
      q := JustFinishedWitness(env, log[..|log| - 1], a);
      assert forall r | q < r < |log| - 1 :: log[r] == log[..|log| - 1][r];
    }
  }

  lemma {:induction false} JustUpWitness(log: seq<Event>, a: nat) returns (q: nat)
    requires JustUp(log, a)
    ensures q < |log| && log[q] == Polled(a, true) && forall r | q < r < |log| :: log[r].Submitted?
    decreases |log|
  {
    if log[|log| - 1] == Polled(a, true) {
      q := |log| - 1;
    } else {
      q := JustUpWitness(log[..|log| - 1], a);
      assert forall r | q < r < |log| - 1 :: log[r] == log[..|log| - 1][r];
    }
  }

  lemma RerunWasStarted(env: Env, log: seq<Event>, t: nat, i: nat)
    requires Legal(env, log) && t < |env.tests| && MayRerun(env, log, t, i)
    ensures Started(log, t)
  {
    LiveWasStarted(log[..|log| - 1], t);
    StartedPrefix(log, |log| - 1, t);
  }

  /** A first submission is never a re-run. */
  lemma FirstIsNoRerun(env: Env, log: seq<Event>, p: nat)
    requires Legal(env, log) && p < |log| && log[p].Submitted? && !Started(log[..p], log[p].test)
    ensures log[p].test < |env.tests| && MayStart(env, log[..p], log[p].test)
  {
    LegalPrefix(env, log, p);
    var t := log[p].test;
    if MayRerun(env, log[..p], t, log[p].iteration) {
      RerunWasStarted(env, log[..p], t, log[p].iteration);
    }
  }

  /** In every run, a test whose only start dependency is start_post_comp is first submitted right
      after that dependency finished its last iteration or was ended by its own dependency. */
  lemma FirstStartAfterCompletion(env: Env, rounds: nat, p: nat)
    requires p < |Run(env, rounds).log| && Run(env, rounds).log[p].Submitted?
    requires var log := Run(env, rounds).log; !Started(log[..p], log[p].test) && log[p].test < |env.tests|
    requires var deps := env.tests[Run(env, rounds).log[p].test].deps; StartPostComp in deps && StartPostInit !in deps
    ensures var log := Run(env, rounds).log;
            exists q | 0 <= q < p :: FinalCompletion(env, log[q], env.tests[log[p].test].deps[StartPostComp])
                                     && forall r | q < r < p :: log[r].Submitted? || log[r].Killed?
  {
    var log := Run(env, rounds).log;
    RunIsLegal(env, rounds);
    FirstIsNoRerun(env, log, p);
    var q := JustFinishedWitness(env, log[..p], env.tests[log[p].test].deps[StartPostComp]);
    assert FinalCompletion(env, log[q], env.tests[log[p].test].deps[StartPostComp]);
    assert forall r | q < r < p :: log[r] == log[..p][r];
  }

  /** In every run, a test whose only start dependency is start_post_init is first submitted while
      that dependency is live, right after a poll reported it running or completed. */
  lemma FirstStartAfterInit(env: Env, rounds: nat, p: nat)
    requires p < |Run(env, rounds).log| && Run(env, rounds).log[p].Submitted?
    requires var log := Run(env, rounds).log; !Started(log[..p], log[p].test) && log[p].test < |env.tests|
    requires var deps := env.tests[Run(env, rounds).log[p].test].deps; StartPostInit in deps && StartPostComp !in deps
    ensures var log := Run(env, rounds).log;
            var a := env.tests[log[p].test].deps[StartPostInit];
            LiveIn(log[..p], a) && exists q | 0 <= q < p :: log[q] == Polled(a, true) && forall r | q < r < p :: log[r].Submitted?
  {
    var log := Run(env, rounds).log;
    RunIsLegal(env, rounds);
    FirstIsNoRerun(env, log, p);
    var q := JustUpWitness(log[..p], env.tests[log[p].test].deps[StartPostInit]);
    assert log[q] == Polled(env.tests[log[p].test].deps[StartPostInit], true);
    assert forall r | q < r < p :: log[r] == log[..p][r];
  }

  // ----- Which tests can be started at all -----

  /** At most `n` start edges lead from a root to `t`. */
  predicate StartableBy(env: Env, t: nat, n: nat)
    decreases n
  {
    t < |env.tests| &&
    var deps := env.tests[t].deps;
    || IsRoot(env.tests[t])
    || (n > 0 && StartPostComp in deps && StartableBy(env, deps[StartPostComp], n - 1))
    || (n > 0 && StartPostInit in deps && StartableBy(env, deps[StartPostInit], n - 1))
  }

  /** Start edges lead from a root to `t`. */
  ghost predicate Startable(env: Env, t: nat) {
    t < |env.tests| && exists n: nat :: StartableBy(env, t, n)
  }

  lemma StartableNext(env: Env, kind: DepKind, a: nat, t: nat)
    requires Startable(env, a) && t < |env.tests| && kind != EndPostComp && DependsOn(env.tests[t], kind, a)
    ensures Startable(env, t)
  {
    var n: nat :| StartableBy(env, a, n);
    assert StartableBy(env, t, n + 1);
  }

  /** Whatever the cluster answers, no other test is ever submitted. */
  lemma {:induction false} StartedIsStartable(env: Env, log: seq<Event>, t: nat)
    requires Legal(env, log) && Started(log, t)
    ensures Startable(env, t)
    decreases |log|, 0
  {
    var front, e := log[..|log| - 1], log[|log| - 1];
    if Started(front, t) {
      StartedIsStartable(env, front, t);
    } else {
      assert log == front + [e];
      ExtendFacts(env, front, e, t);
      FirstIsNoRerun(env, log, |log| - 1);
      StarterIsStartable(env, front, t);
    }
  }

  lemma StarterIsStartable(env: Env, log: seq<Event>, t: nat)
    requires Legal(env, log) && t < |env.tests| && MayStart(env, log, t)
    ensures Startable(env, t)
    decreases |log|, 1
  {
    var deps := env.tests[t].deps;
    if IsRoot(env.tests[t]) {
      assert StartableBy(env, t, 0);
    } else if StartPostInit in deps && LiveIn(log, deps[StartPostInit]) && JustUp(log, deps[StartPostInit]) {
      LiveWasStarted(log, deps[StartPostInit]);
      StartedIsStartable(env, log, deps[StartPostInit]);
      StartableNext(env, StartPostInit, deps[StartPostInit], t);
    } else {
      var a := deps[StartPostComp];
      var q := JustFinishedWitness(env, log, a);
      LegalPrefix(env, log, q);
      LiveWasStarted(log[..q], a);
      StartedPrefix(log, q, a);
      StartedIsStartable(env, log, a);
      StartableNext(env, StartPostComp, a, t);
    }
  }

  // ----- Scenarios in which nothing waits for another test to be up -----

  predicate CompletionOnly(env: Env) {
    forall t | 0 <= t < |env.tests| :: StartPostInit !in env.tests[t].deps && env.tests[t].step <= 0
  }

  /** No test waits for one that can be started, other than itself, to be up. */
  ghost predicate NoneAwaited(env: Env) {
    forall t | 0 <= t < |env.tests| ::
      && env.tests[t].step <= 0
      && (StartPostInit in env.tests[t].deps ==> env.tests[t].deps[StartPostInit] == t || !Startable(env, env.tests[t].deps[StartPostInit]))
  }

  lemma NeverStartedByInit(env: Env, log: seq<Event>, t: nat)
    requires NoneAwaited(env) && Legal(env, log) && t < |env.tests| && !LiveIn(log, t)
    ensures StartPostInit in env.tests[t].deps ==> !LiveIn(log, env.tests[t].deps[StartPostInit])
  {
    if StartPostInit in env.tests[t].deps && LiveIn(log, env.tests[t].deps[StartPostInit]) {
      LiveWasStarted(log, env.tests[t].deps[StartPostInit]);
      StartedIsStartable(env, log, env.tests[t].deps[StartPostInit]);
    }
  }

  /** The iterations `t` was submitted with, in order. */
  function Iterations(log: seq<Event>, t: nat): seq<nat> {
    if log == [] then []
    else
      var e := log[|log| - 1];
      Iterations(log[..|log| - 1], t) + if e.Submitted? && e.test == t then [e.iteration] else []
  }

  predicate RepeatFree(times: seq<nat>) {
    forall i, j | 0 <= i < j < |times| :: times[i] != times[j]
  }

  /** No test is submitted twice with the same iteration. */
  predicate SubmitsOnce(env: Env, log: seq<Event>) {
    forall t: nat | t < |env.tests| :: RepeatFree(Iterations(log, t))
  }

  function Range(lo: nat, hi: nat): (r: seq<nat>)
    ensures |r| == if lo <= hi then hi - lo else 0
    ensures forall k | 0 <= k < |r| :: r[k] == lo + k
  {
    if lo >= hi then [] else Range(lo, hi - 1) + [hi - 1]
  }

  /** One more than the last iteration `t` can reach. */
  function Limit(test: Test): nat {
    if test.iterations > test.first then test.iterations else test.first + 1
  }

  function WasKilled(log: seq<Event>, t: nat): bool {
    Killed(t) in log
  }

  /** What a legal log says about test `t`. */
  ghost predicate Once(env: Env, log: seq<Event>, t: nat)
    requires t < |env.tests|
  {
    var test := env.tests[t];
    var last := IterationIn(log, t, test.first);
    && (if Started(log, t) then test.first <= last < Limit(test) && Iterations(log, t) == Range(test.first, last + 1)
        else last == test.first && Iterations(log, t) == [])
    && (LiveIn(log, t) ==> Started(log, t) && !Finished(env, log, t))
    && (Finished(env, log, t) ==> Started(log, t))
    && (|log| > 0 && log[|log| - 1].Completed? && log[|log| - 1].test == t && !FinalCompletion(env, log[|log| - 1], t)
        ==> Started(log, t) && !Finished(env, log, t) && log[|log| - 1].iteration == last)
    && (Finished(env, log, t) && !WasKilled(log, t) ==> last + 1 >= test.iterations)
    && (KilledIn(log, t) ==> WasKilled(log, t))
    && (StartPostComp in test.deps && Started(log, t) ==> Finished(env, log, test.deps[StartPostComp]))
    && (StartPostComp in test.deps && Started(log, t) && JustFinished(env, log, test.deps[StartPostComp]) ==> LiveIn(log, t))
  }

  ghost predicate AllOnce(env: Env, log: seq<Event>) {
    forall t | 0 <= t < |env.tests| :: Once(env, log, t)
  }

  lemma ExtendFacts(env: Env, log: seq<Event>, e: Event, t: nat)
    ensures Started(log + [e], t) <==> Started(log, t) || (e.Submitted? && e.test == t)
    ensures Finished(env, log + [e], t) <==> Finished(env, log, t) || FinalCompletion(env, e, t)
    ensures WasKilled(log + [e], t) <==> WasKilled(log, t) || e == Killed(t)
  {
    var r := log + [e];
    if p :| 0 <= p < |log| && log[p].Submitted? && log[p].test == t {
      assert r[p].Submitted? && r[p].test == t;
    }
    if p :| 0 <= p < |log| && FinalCompletion(env, log[p], t) {
      assert FinalCompletion(env, r[p], t);
    }
    assert r[|log|] == e;
  }

  lemma SubmittedOnce(env: Env, log: seq<Event>, u: nat, i: nat, t: nat)
    requires WellFormed(env) && NoneAwaited(env) && Legal(env, log) && AllOnce(env, log)
    requires MayHappen(env, log, Submitted(u, i)) && t < |env.tests|
    ensures Once(env, log + [Submitted(u, i)], t)
  {
    assert Once(env, log, t);
    if u == t {
      NeverStartedByInit(env, log, t);
      if MayRerun(env, log, t, i) { RerunOnce(env, log, t, i); } else { StartOnce(env, log, t, i); }
    } else {
      ElsewhereOnce(env, log, u, i, t);
    }
  }

  lemma ElsewhereOnce(env: Env, log: seq<Event>, u: nat, i: nat, t: nat)
    requires t < |env.tests| && u != t && Once(env, log, t)
    ensures Once(env, log + [Submitted(u, i)], t)
  {
    Extend(log, Submitted(u, i));
    ExtendFacts(env, log, Submitted(u, i), t);
    if StartPostComp in env.tests[t].deps {
      ExtendFacts(env, log, Submitted(u, i), env.tests[t].deps[StartPostComp]);
    }
  }

  lemma RerunOnce(env: Env, log: seq<Event>, t: nat, i: nat)
    requires t < |env.tests| && Once(env, log, t) && MayRerun(env, log, t, i)
    ensures Once(env, log + [Submitted(t, i)], t)
  {
    Extend(log, Submitted(t, i));
    ExtendFacts(env, log, Submitted(t, i), t);
    if StartPostComp in env.tests[t].deps {
      ExtendFacts(env, log, Submitted(t, i), env.tests[t].deps[StartPostComp]);
    }
  }

  lemma StartOnce(env: Env, log: seq<Event>, t: nat, i: nat)
    requires WellFormed(env) && t < |env.tests| && Once(env, log, t) && !LiveIn(log, t)
    requires MayStart(env, log, t) && i == IterationIn(log, t, env.tests[t].first)
    requires StartPostInit in env.tests[t].deps ==> !LiveIn(log, env.tests[t].deps[StartPostInit])
    ensures Once(env, log + [Submitted(t, i)], t)
  {
    Extend(log, Submitted(t, i));
    ExtendFacts(env, log, Submitted(t, i), t);
    if StartPostComp in env.tests[t].deps {
      ExtendFacts(env, log, Submitted(t, i), env.tests[t].deps[StartPostComp]);
      var q := JustFinishedWitness(env, log, env.tests[t].deps[StartPostComp]);
    }
  }

  lemma OtherOnce(env: Env, log: seq<Event>, e: Event, t: nat)
    requires WellFormed(env) && AllOnce(env, log) && MayHappen(env, log, e) && !e.Submitted? && t < |env.tests|
    ensures Once(env, log + [e], t)
  {
    Extend(log, e);
    ExtendFacts(env, log, e, t);
    assert Once(env, log, t);
    if StartPostComp in env.tests[t].deps {
      var a := env.tests[t].deps[StartPostComp];
      ExtendFacts(env, log, e, a);
      assert Once(env, log, a);
    }
  }

  lemma {:induction false} LegalIsOnce(env: Env, log: seq<Event>)
    requires WellFormed(env) && NoneAwaited(env) && Legal(env, log)
    ensures AllOnce(env, log)
    decreases |log|
  {
    if log != [] {
      var front, e := log[..|log| - 1], log[|log| - 1];
      LegalIsOnce(env, front);
      assert log == front + [e];
      forall t | 0 <= t < |env.tests| ensures Once(env, log, t) {
        if e.Submitted? {
          SubmittedOnce(env, front, e.test, e.iteration, t);
        } else {
          OtherOnce(env, front, e, t);
        }
      }
    }
  }

  /** When no startable test is waited for to be up, each test is submitted with iterations first, first + 1, ... in
      order, each at most once and never reaching the limit, cyclic or not, killed or not. */
  lemma SubmittedAtMostOnceInOrder(env: Env, rounds: nat, t: nat)
    requires WellFormed(env) && NoneAwaited(env) && t < |env.tests|
    ensures exists hi: nat :: env.tests[t].first <= hi <= Limit(env.tests[t])
                              && Iterations(Run(env, rounds).log, t) == Range(env.tests[t].first, hi)
  {
    RunIsLegal(env, rounds);
    var log := Run(env, rounds).log;
    LegalIsOnce(env, log);
    assert Once(env, log, t);
    if Started(log, t) {
      assert Iterations(log, t) == Range(env.tests[t].first, IterationIn(log, t, env.tests[t].first) + 1);
    } else {
      assert Iterations(log, t) == Range(env.tests[t].first, env.tests[t].first);
    }
  }
}
