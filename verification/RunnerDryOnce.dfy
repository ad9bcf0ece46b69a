/** When a dry run submits every test with each iteration at most once: exactly when every test that waits
    for another one to be up lasts at least as long as that one can be polled. */
module RunnerDryOnce {
  import opened RunnerModel
  import opened RunnerSafety
  import opened RunnerOnce
  import opened RunnerCoverage
  import opened RunnerTermination
  import opened RunnerTurns
  import opened RunnerDryStarts

  /** At most one start dependency per test, and nothing is killed. */
  ghost predicate Plain(env: Env) {
    Dry(env) && forall t: nat | t < |env.tests| ::
      Steady(env, t) && (StartPostInit in env.tests[t].deps ==> StartPostComp !in env.tests[t].deps)
  }

  /** The turns that one start of the test lasts. */
  function Turns(test: Test): (n: nat)
    ensures n >= 1
  {
    Limit(test) - test.first
  }

  /** The turns that begin with the test on the list: all of them, unless a polling pass has started it. */
  function TimesPolled(test: Test): nat {
    Turns(test) - if StartPostInit in test.deps then 1 else 0
  }

  /** `t` is still there whenever the test it waits for is polled again. */
  predicate Outlasts(env: Env, t: nat)
    requires WellFormed(env) && t < |env.tests|
  {
    StartPostInit in env.tests[t].deps ==> TimesPolled(env.tests[env.tests[t].deps[StartPostInit]]) <= Turns(env.tests[t])
  }

  // ----- The invariant at the top of the loop -----

  /** Each iteration was submitted once, in order; a test that has left the list has been through all of them. */
  ghost predicate InOrder(env: Env, s: State, t: nat)
    requires InScenario(env, s) && t < |env.tests|
  {
    var test := env.tests[t];
    && test.first <= s.iters[t] < Limit(test)
    && Times(s, t) == SoFar(test.first, s.iters[t], Begun(s, t))
    && (Live(s, t) ==> Begun(s, t))
    && (!Begun(s, t) ==> s.iters[t] == test.first)
    && (Gone(s, t) ==> !More(env, s, t))
  }

  /** How often `a` has been polled. */
  function PolledSoFar(env: Env, s: State, a: nat): int
    requires InScenario(env, s) && a < |env.tests|
  {
    s.iters[a] - env.tests[a].first - if StartPostInit in env.tests[a].deps then 1 else 0
  }

  /** `t` waits for `a` to be up: it began with the first poll of `a` and goes on in step with it, or it
      was too short and is gone. */
  ghost predicate InStep(env: Env, s: State, t: nat, a: nat)
    requires WellFormed(env) && InScenario(env, s) && t < |env.tests| && a < |env.tests|
  {
    var polled := PolledSoFar(env, s, a);
    if Live(s, a) then
      && polled >= 0 && (Begun(s, t) <==> polled > 0)
      && (Live(s, t) ==> s.iters[t] - env.tests[t].first == polled)
      && (Gone(s, t) ==> polled >= Turns(env.tests[t]))
    else
      && (Begun(s, t) <==> Begun(s, a) && TimesPolled(env.tests[a]) > 0)
      && (Begun(s, t) ==> Outlasts(env, t))
  }

  ghost predicate Paced(env: Env, s: State, t: nat)
    requires WellFormed(env) && InScenario(env, s) && t < |env.tests|
  {
    var deps := env.tests[t].deps;
    && InOrder(env, s, t)
    && (StartPostComp in deps ==> (Begun(s, t) <==> Gone(s, deps[StartPostComp])))
    && (StartPostInit in deps ==> InStep(env, s, t, deps[StartPostInit]))
    && (IsRoot(env.tests[t]) ==> Begun(s, t))
    && (Live(s, t) && StartPostInit in deps ==> s.iters[t] > env.tests[t].first)
  }

  ghost predicate AllPaced(env: Env, s: State) {
    Plain(env) && Clean(env, s) && forall t: nat | t < |env.tests| :: Paced(env, s, t)
  }

  /** `t` is gone while the test it waits for is still polled. */
  predicate Short(env: Env, s: State, t: nat)
    requires WellFormed(env) && t < |env.tests|
  {
    StartPostInit in env.tests[t].deps && Live(s, env.tests[t].deps[StartPostInit]) && Gone(s, t)
  }

  ghost predicate NoneShort(env: Env, s: State)
    requires WellFormed(env)
  {
    forall t: nat | t < |env.tests| :: !Short(env, s, t)
  }

  lemma RangeMore(lo: nat, hi: nat)
    requires lo <= hi
    ensures Range(lo, hi + 1) == Range(lo, hi) + [hi]
  {
  }

  lemma RangeStart(lo: nat)
    ensures Range(lo, lo + 1) == [lo]
  {
    assert Range(lo, lo) == [];
  }

  /** What a test waits for to complete is not there any more once the test has begun. */
  lemma NotFreedAgain(env: Env, s: State, t: nat)
    requires AllPaced(env, s) && NoneShort(env, s) && t < |env.tests|
    requires Begun(s, t)
    ensures !Freed(env, s, t, true)
  {
    if StartPostComp in env.tests[t].deps {
      var x := env.tests[t].deps[StartPostComp];
      assert Paced(env, s, t) && Paced(env, s, x) && !Short(env, s, x);
    }
  }

  function SoFar(first: nat, i: nat, begun: bool): seq<nat> {
    if begun then Range(first, i + 1) else []
  }

  /** Beginning now, going on to the next iteration, or both. */
  lemma TimesGrow(first: nat, i: nat, begun: bool)
    requires first <= i && (!begun ==> i == first)
    ensures SoFar(first, i, begun) + OneIf(!begun, i) + [i + 1] == SoFar(first, i + 1, true)
    ensures SoFar(first, i, begun) + OneIf(!begun, i) + [] == SoFar(first, i, true)
    ensures SoFar(first, i, begun) + [] + OneIf(!begun, i) == SoFar(first, i, true)
    ensures SoFar(first, i, begun) + [] + [] == SoFar(first, i, begun)
  {
    RangeMore(first, i + 1);
    RangeStart(first);
  }

  /** A test that a turn starts has not begun before, and is started in one way only. */
  predicate FirstTime(env: Env, s: State, t: nat)
    requires WellFormed(env) && InScenario(env, s) && t < |env.tests|
  {
    && Steady(env, t) && Freed(env, s, t, false) == Freed(env, s, t, true)
    && (Begun(s, t) ==> !Freed(env, s, t, true) && (Up(env, s, t) ==> Live(s, t)))
    && (Up(env, s, t) ==> !Freed(env, s, t, true))
  }

  lemma StartsFirstTime(env: Env, s: State, t: nat)
    requires AllPaced(env, s) && NoneShort(env, s) && t < |env.tests|
    ensures FirstTime(env, s, t)
  {
    assert Paced(env, s, t) && !Short(env, s, t);
    if Begun(s, t) {
      NotFreedAgain(env, s, t);
    }
  }

  lemma TurnInOrder(env: Env, s: State, r: State, t: nat)
    requires WellFormed(env) && Clean(env, s) && Clean(env, r) && t < |env.tests|
    requires InOrder(env, s, t) && FirstTime(env, s, t) && Turned(env, s, r, t)
    ensures InOrder(env, r, t)
    ensures Begun(r, t) <==> Begun(s, t) || Up(env, s, t) || Freed(env, s, t, true)
    ensures Live(r, t) <==> (Up(env, s, t) && More(env, s, t)) || Freed(env, s, t, true)
  {
    var i, begun := s.iters[t], Begun(s, t);
    TimesGrow(env.tests[t].first, i, begun);
    assert Up(env, s, t) && !Live(s, t) <==> Up(env, s, t) && !begun;
    assert Times(s, t) == SoFar(env.tests[t].first, i, begun);
  }

  /** A turn in which nothing is started again. */
  lemma OrderKept(env: Env, s: State, r: State, t: nat)
    requires AllPaced(env, s) && NoneShort(env, s) && t < |env.tests|
    requires Clean(env, r) && Turned(env, s, r, t)
    ensures InOrder(env, r, t) && FirstTime(env, s, t)
    ensures Begun(r, t) <==> Begun(s, t) || Up(env, s, t) || Freed(env, s, t, true)
    ensures Live(r, t) <==> (Up(env, s, t) && More(env, s, t)) || Freed(env, s, t, true)
  {
    StartsFirstTime(env, s, t);
    assert Paced(env, s, t);
    TurnInOrder(env, s, r, t);
  }

  lemma PaceKept(env: Env, s: State, r: State, t: nat)
    requires AllPaced(env, s) && NoneShort(env, s) && AllTurned(env, s, r) && t < |env.tests|
    ensures Paced(env, r, t)
  {
    var deps := env.tests[t].deps;
    assert Paced(env, s, t) && Turned(env, s, r, t) && !Short(env, s, t);
    OrderKept(env, s, r, t);
    if StartPostComp in deps {
      var x := deps[StartPostComp];
      assert Paced(env, s, x) && Turned(env, s, r, x);
      OrderKept(env, s, r, x);
    }
    if StartPostInit in deps {
      var a := deps[StartPostInit];
      assert Paced(env, s, a) && Turned(env, s, r, a);
      OrderKept(env, s, r, a);
    }
  }

  // ----- When a test is too short -----

  /** Some reached test does not outlast the one it waits for, and has been submitted twice with one iteration. */
  ghost predicate Broken(env: Env, s: State)
    requires WellFormed(env)
  {
    exists t: nat | t < |env.tests| :: BrokenAt(env, s, t)
  }

  ghost predicate BrokenAt(env: Env, s: State, t: nat)
    requires WellFormed(env) && t < |env.tests|
  {
    Reached(env, t) && !Outlasts(env, t) && !RepeatFree(Times(s, t))
  }

  /** Until some test is submitted again, everything is in step. */
  ghost predicate Decided(env: Env, s: State) {
    Plain(env) && AllOnTop(env, s) && (AllPaced(env, s) || Broken(env, s))
  }

  lemma ShortBreaks(env: Env, s: State, r: State, t: nat)
    requires AllPaced(env, s) && AllOnTop(env, s) && AllTurned(env, s, r) && t < |env.tests| && Short(env, s, t)
    ensures Broken(env, r)
  {
    var a := env.tests[t].deps[StartPostInit];
    assert Paced(env, s, t) && Paced(env, s, a) && Turned(env, s, r, t) && OnTop(env, s, t);
    var last := |Times(s, t)| - 1;
    assert Times(s, t)[last] == s.iters[t] == Times(r, t)[last + 1] && Times(r, t)[last] == Times(s, t)[last];
    assert BrokenAt(env, r, t);
  }

  lemma PrefixKeepsRepeat(p: seq<nat>, q: seq<nat>)
    requires p <= q && !RepeatFree(p)
    ensures !RepeatFree(q)
  {
    var i, j :| 0 <= i < j < |p| && p[i] == p[j];
    assert q[i] == q[j];
  }

  lemma BrokenStays(env: Env, s: State, r: State)
    requires WellFormed(env) && Clean(env, s) && AllTurned(env, s, r) && Broken(env, s)
    ensures Broken(env, r)
  {
    var t: nat :| t < |env.tests| && BrokenAt(env, s, t);
    assert Turned(env, s, r, t);
    PrefixKeepsRepeat(Times(s, t), Times(r, t));
    assert BrokenAt(env, r, t);
  }

  lemma PlainIsPredictable(env: Env)
    requires Plain(env)
    ensures Predictable(env)
  {
  }

  // ----- Whole runs -----

  lemma RoundDecided(env: Env, s: State)
    requires Decided(env, s)
    ensures Decided(env, Round(env, s))
  {
    var r := Round(env, s);
    RoundTurns(env, s);
    RoundOnTop(env, s);
    if Broken(env, s) {
      BrokenStays(env, s, r);
    } else if NoneShort(env, s) {
      forall t: nat | t < |env.tests| ensures Paced(env, r, t) {
        PaceKept(env, s, r, t);
      }
    } else {
      var t: nat :| t < |env.tests| && Short(env, s, t);
      ShortBreaks(env, s, r, t);
    }
  }

  lemma {:induction false} RoundsDecided(env: Env, s: State, rounds: nat)
    requires Decided(env, s)
    ensures Decided(env, Rounds(env, s, rounds))
    decreases rounds
  {
    if rounds > 0 && s.queue != [] {
      RoundDecided(env, s);
      RoundsDecided(env, Round(env, s), rounds - 1);
    }
  }

  lemma BeginsPaced(env: Env)
    requires Plain(env)
    ensures AllPaced(env, SubmitRoots(env, Fresh(env), 0))
  {
    var s := SubmitRoots(env, Fresh(env), 0);
    SubmitRootsStarts(env, Fresh(env), 0);
    forall t: nat | t < |env.tests| ensures Paced(env, s, t) {
      var deps := env.tests[t].deps;
      RootsBegin(env, t);
      RangeStart(env.tests[t].first);
      if StartPostComp in deps { RootsBegin(env, deps[StartPostComp]); }
      if StartPostInit in deps { RootsBegin(env, deps[StartPostInit]); }
    }
  }

  lemma RunDecided(env: Env, rounds: nat)
    requires Plain(env)
    ensures Decided(env, Run(env, rounds))
  {
    PlainIsPredictable(env);
    RunOnTop(env, 0);
    BeginsPaced(env);
    assert Run(env, 0) == SubmitRoots(env, Fresh(env), 0);
    RoundsDecided(env, SubmitRoots(env, Fresh(env), 0), rounds);
  }

  // ----- The characterization -----

  ghost predicate AllOutlast(env: Env)
    requires WellFormed(env)
  {
    forall t: nat | t < |env.tests| && Reached(env, t) :: Outlasts(env, t)
  }

  lemma OutlastingIsPaced(env: Env, s: State)
    requires Decided(env, s) && AllOutlast(env)
    ensures AllPaced(env, s)
  {
    forall t: nat | t < |env.tests| ensures !BrokenAt(env, s, t) {}
  }

  function Reach(env: Env, s: State, t: nat): nat
    requires InScenario(env, s) && t < |env.tests|
  {
    if Begun(s, t) then s.iters[t] + 1 else env.tests[t].first
  }

  lemma PacedInOrder(env: Env, s: State, t: nat)
    requires AllPaced(env, s) && t < |env.tests|
    ensures env.tests[t].first <= Reach(env, s, t) <= Limit(env.tests[t])
    ensures Iterations(s.log, t) == Range(env.tests[t].first, Reach(env, s, t))
    ensures Gone(s, t) ==> Reach(env, s, t) == Limit(env.tests[t])
  {
    assert Paced(env, s, t) && Times(s, t) == Iterations(s.log, t);
  }

  /** While every reached test outlasts the one it waits for, the iterations of every test come in order
      and each once, however long the dry run is watched. */
  lemma OutlastingRunsInOrder(env: Env, rounds: nat, t: nat)
    requires Plain(env) && AllOutlast(env) && t < |env.tests|
    ensures exists hi: nat :: env.tests[t].first <= hi <= Limit(env.tests[t])
                              && Iterations(Run(env, rounds).log, t) == Range(env.tests[t].first, hi)
  {
    RunDecided(env, rounds);
    OutlastingIsPaced(env, Run(env, rounds));
    PacedInOrder(env, Run(env, rounds), t);
  }

  /** Whatever the run, a test that has ended normally with everything in step ran through all its iterations. */
  lemma EndedInOrder(env: Env, s: State, t: nat)
    requires AllPaced(env, s) && s.queue == [] && t < |env.tests|
    ensures Begun(s, t) ==> Outlasts(env, t)
    ensures Iterations(s.log, t) == if Begun(s, t) then Range(env.tests[t].first, Limit(env.tests[t])) else []
  {
    PacedInOrder(env, s, t);
    assert Paced(env, s, t);
  }

  /** A dry run submits each test with each iteration at most once if and only if every reached test outlasts
      the one it waits for; and then it submits exactly the reached tests, with all their iterations. */
  lemma DryRunSubmitsOnceIff(env: Env, rounds: nat)
    requires Plain(env) && EndedNormally(Run(env, rounds))
    ensures SubmitsOnce(env, Run(env, rounds).log) <==> AllOutlast(env)
    ensures AllOutlast(env) ==>
              forall t: nat | t < |env.tests| ::
                Iterations(Run(env, rounds).log, t) == if Reached(env, t) then Range(env.tests[t].first, Limit(env.tests[t])) else []
  {
    var r := Run(env, rounds);
    RunDecided(env, rounds);
    PlainIsPredictable(env);
    if AllPaced(env, r) {
      forall t: nat | t < |env.tests|
        ensures Reached(env, t) ==> Outlasts(env, t)
        ensures Iterations(r.log, t) == if Reached(env, t) then Range(env.tests[t].first, Limit(env.tests[t])) else []
      {
        EndedInOrder(env, r, t);
        DryRunStartsExactly(env, rounds, t);
        BegunIsStarted(r, t);
      }
    } else {
      var t: nat :| t < |env.tests| && BrokenAt(env, r, t);
      assert !RepeatFree(Iterations(r.log, t));
    }
  }

  // ----- It always ends -----

  predicate IsDepth(env: Env, t: nat, n: nat) {
    StartableBy(env, t, n) && forall m: nat | m < n :: !StartableBy(env, t, m)
  }

  lemma {:induction false} DepthExists(env: Env, t: nat, n: nat)
    requires StartableBy(env, t, n)
    ensures exists least: nat :: IsDepth(env, t, least)
    decreases n
  {
    if m: nat :| m < n && StartableBy(env, t, m) {
      DepthExists(env, t, m);
    } else {
      assert IsDepth(env, t, n);
    }
  }

  /** The number of start edges from the root to `t`. */
  ghost function Depth(env: Env, t: nat): nat {
    if exists n: nat :: IsDepth(env, t, n) then var n: nat :| IsDepth(env, t, n); n else 0
  }

  lemma DepthFalls(env: Env, kind: DepKind, a: nat, t: nat)
    requires Plain(env) && Startable(env, a) && t < |env.tests| && kind != EndPostComp && DependsOn(env.tests[t], kind, a)
    ensures Depth(env, a) < Depth(env, t)
  {
    StartableNext(env, kind, a, t);
    var i: nat :| StartableBy(env, a, i);
    var j: nat :| StartableBy(env, t, j);
    DepthExists(env, a, i);
    DepthExists(env, t, j);
    var n := Depth(env, t);
    assert IsDepth(env, t, n) && IsDepth(env, a, Depth(env, a));
    assert StartableBy(env, a, n - 1);
  }

  /** With one start dependency per test no cycle has a way in, so every such dry run ends. */
  lemma PlainRunEnds(env: Env)
    requires Plain(env)
    ensures exists bound: nat :: EndsWithin(env, bound)
  {
    var rank := (t: nat) => Depth(env, t);
    forall t, kind | 0 <= t < |env.tests| && kind in env.tests[t].deps && kind != EndPostComp
                     && Startable(env, env.tests[t].deps[kind])
      ensures rank(env.tests[t].deps[kind]) < rank(t)
    {
      DepthFalls(env, kind, env.tests[t].deps[kind], t);
    }
    assert EntryRanked(env, rank);
    DryRunTerminates(env);
  }
}
