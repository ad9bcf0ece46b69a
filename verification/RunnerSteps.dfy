/** A test run with a step number above 0 never moves on to another iteration. */
module RunnerSteps {
  import opened RunnerModel

  predicate AllStepped(env: Env) {
    forall t | 0 <= t < |env.tests| :: env.tests[t].step > 0
  }

  lemma {:induction false} StartDependentsKeeps(env: Env, s: State, kind: DepKind, source: nat, i: nat)
    requires InScenario(env, s) && i <= |env.tests|
    ensures StartDependents(env, s, kind, source, i).iters == s.iters
    decreases |env.tests| - i
  {
    if i < |env.tests| {
      var s' := if !Live(s, i) && DependsOn(env.tests[i], kind, source) then Submit(env, s, i) else s;
      StartDependentsKeeps(env, s', kind, source, i + 1);
    }
  }

  lemma {:induction false} SubmitRootsKeeps(env: Env, s: State, i: nat)
    requires InScenario(env, s) && i <= |env.tests|
    ensures SubmitRoots(env, s, i).iters == s.iters
    decreases |env.tests| - i
  {
    if i < |env.tests| {
      SubmitRootsKeeps(env, if IsRoot(env.tests[i]) then Submit(env, s, i) else s, i + 1);
    }
  }

  lemma {:induction false} PollInitKeeps(env: Env, s: State, snapshot: seq<LiveJob>, k: nat)
    requires InScenario(env, s) && k <= |snapshot|
    ensures PollInit(env, s, snapshot, k).iters == s.iters
    decreases |snapshot| - k
  {
    if k < |snapshot| && !s.halted && Ask(env, s) != Raise {
      var t, up := snapshot[k].test, Ask(env, s) == Yes;
      var s' := Note(s, Polled(t, up));
      StartDependentsKeeps(env, s', StartPostInit, t, 0);
      PollInitKeeps(env, if up then StartDependents(env, s', StartPostInit, t, 0) else s', snapshot, k + 1);
    }
  }

  lemma CompleteKeeps(env: Env, s: State, t: nat)
    requires AllStepped(env) && InScenario(env, s) && t < |env.tests|
    ensures Complete(env, s, t).iters == s.iters
  {
  }

  lemma SettleKeeps(env: Env, s: State, t: nat)
    requires AllStepped(env) && InScenario(env, s) && t < |env.tests|
    ensures Settle(env, s, t).iters == s.iters
  {
    CompleteKeeps(env, s, t);
    CompleteKeeps(env, Note(s, Judged(t, Ask(env, s) == Yes)), t);
  }

  lemma {:induction false} MonitorKeeps(env: Env, s: State, snapshot: seq<LiveJob>, k: nat)
    requires AllStepped(env) && InScenario(env, s) && k <= |snapshot|
    requires forall i | 0 <= i < |snapshot| :: snapshot[i].test < |env.tests|
    ensures Monitor(env, s, snapshot, k).iters == s.iters
    decreases |snapshot| - k
  {
    if k < |snapshot| && !s.halted && Ask(env, s) != Raise {
      var t, done := snapshot[k].test, Ask(env, s) == Yes;
      var s' := Note(s, Checked(t, done));
      SettleKeeps(env, s', t);
      MonitorKeeps(env, if done then Settle(env, s', t) else s', snapshot, k + 1);
    }
  }

  lemma {:induction false} RoundsKeep(env: Env, s: State, rounds: nat)
    requires AllStepped(env) && InScenario(env, s)
    ensures Rounds(env, s, rounds).iters == s.iters
    decreases rounds
  {
    if rounds > 0 && !s.halted && s.queue != [] {
      var s' := PollInit(env, s, s.queue, 0);
      PollInitKeeps(env, s, s.queue, 0);
      MonitorKeeps(env, s', s'.queue, 0);
      RoundsKeep(env, Round(env, s), rounds - 1);
    }
  }

  /** Whatever the cluster answers and however long the run is watched, no stepped test run leaves the
      iteration it began with. */
  lemma SteppedRunsStay(env: Env, rounds: nat, t: nat)
    requires AllStepped(env) && t < |env.tests|
    ensures Run(env, rounds).iters[t] == env.tests[t].first
  {
    SubmitRootsKeeps(env, Fresh(env), 0);
    RoundsKeep(env, SubmitRoots(env, Fresh(env), 0), rounds);
  }

  // ----- Exits -----

  /** A single stepped test run without dependencies. */
  predicate Alone(env: Env) {
    |env.tests| == 1 && AllStepped(env) && env.tests[0].deps == map[]
  }

  lemma {:induction false} StartsNobody(env: Env, s: State, kind: DepKind, source: nat, i: nat)
    requires Alone(env) && InScenario(env, s) && i <= |env.tests|
    ensures StartDependents(env, s, kind, source, i) == s
    decreases |env.tests| - i
  {
    if i < |env.tests| {
      StartsNobody(env, s, kind, source, i + 1);
    }
  }

  lemma {:induction false} PollInitNeverExits(env: Env, s: State, snapshot: seq<LiveJob>, k: nat)
    requires Alone(env) && InScenario(env, s) && k <= |snapshot|
    ensures PollInit(env, s, snapshot, k).exited == s.exited
    decreases |snapshot| - k
  {
    if k < |snapshot| && !s.halted && Ask(env, s) != Raise {
      var s' := Note(s, Polled(snapshot[k].test, Ask(env, s) == Yes));
      StartsNobody(env, s', StartPostInit, snapshot[k].test, 0);
      PollInitNeverExits(env, s', snapshot, k + 1);
    }
  }

  lemma {:induction false} ShutdownNeverExits(s: State, k: nat)
    requires k <= |s.queue|
    ensures Shutdown(s, k).exited == s.exited
    decreases |s.queue| - k
  {
    if k < |s.queue| {
      ShutdownNeverExits(Note(s, Cancelled(s.queue[k].test)), k + 1);
    }
  }

  lemma SettleNeverExits(env: Env, s: State, t: nat)
    requires Alone(env) && InScenario(env, s) && t < |env.tests|
    ensures Settle(env, s, t).exited == s.exited
  {
    if !env.dryRun && Ask(env, s) != Raise {
      ShutdownNeverExits(Complete(env, Note(s, Judged(t, Ask(env, s) == Yes)), t), 0);
    }
  }

  lemma {:induction false} MonitorNeverExits(env: Env, s: State, snapshot: seq<LiveJob>, k: nat)
    requires Alone(env) && InScenario(env, s) && k <= |snapshot|
    requires forall i | 0 <= i < |snapshot| :: snapshot[i].test < |env.tests|
    ensures Monitor(env, s, snapshot, k).exited == s.exited
    decreases |snapshot| - k
  {
    if k < |snapshot| && !s.halted && Ask(env, s) != Raise {
      var t, done := snapshot[k].test, Ask(env, s) == Yes;
      var s' := Note(s, Checked(t, done));
      SettleNeverExits(env, s', t);
      MonitorNeverExits(env, if done then Settle(env, s', t) else s', snapshot, k + 1);
    }
  }

  lemma {:induction false} RoundsNeverExit(env: Env, s: State, rounds: nat)
    requires Alone(env) && InScenario(env, s)
    ensures Rounds(env, s, rounds).exited == s.exited
    decreases rounds
  {
    if rounds > 0 && !s.halted && s.queue != [] {
      var s' := PollInit(env, s, s.queue, 0);
      PollInitNeverExits(env, s, s.queue, 0);
      MonitorNeverExits(env, s', s'.queue, 0);
      RoundsNeverExit(env, Round(env, s), rounds - 1);
    }
  }

  /** A stepped test run on its own exits if and only if its one submission is refused. */
  lemma SteppedRunExitsIff(env: Env, rounds: nat)
    requires Alone(env)
    ensures Run(env, rounds).exited <==> !env.dryRun && env.answer(0) == No
  {
    var s := Submit(env, Fresh(env), 0);
    assert IsRoot(env.tests[0]);
    assert SubmitRoots(env, Fresh(env), 0) == SubmitRoots(env, s, 1) == s;
    RoundsNeverExit(env, s, rounds);
  }

  // ----- Without a step -----

  /** A lone test run without a step number goes through its iterations: two of them, in a dry run. */
  predicate Unstepped(env: Env) {
    env.tests == [Test(2, 0, 0, map[])] && env.dryRun
  }

  lemma UnsteppedSubmit(env: Env, s: State)
    requires Unstepped(env) && s.iters == [0] && s.queue == [] && !s.halted
    ensures SubmitRoots(env, s, 0) == Note(s, Submitted(0, 0)).(queue := [LiveJob(0, 0, false)])
  {
    assert IsRoot(env.tests[0]);
    assert SubmitRoots(env, Submit(env, s, 0), 1) == Submit(env, s, 0);
  }

  lemma NoDependents(env: Env, s: State, kind: DepKind)
    requires Unstepped(env) && InScenario(env, s)
    ensures StartDependents(env, s, kind, 0, 0) == s
  {
    assert StartDependents(env, s, kind, 0, 0) == StartDependents(env, s, kind, 0, 1);
  }

  /** So the step number is what keeps a trial in its iteration. */
  lemma UnsteppedRunMoves(env: Env)
    requires Unstepped(env)
    ensures Run(env, 1).iters == [1] && !Run(env, 1).exited
  {
    var job := LiveJob(0, 0, false);
    var s := SubmitRoots(env, Fresh(env), 0);
    UnsteppedSubmit(env, Fresh(env));
    var polled := Note(s, Polled(0, true));
    NoDependents(env, polled, StartPostInit);
    assert PollInit(env, s, s.queue, 0) == PollInit(env, polled, s.queue, 1) == polled;
    var checked := Note(polled, Checked(0, true));
    assert FindJob([job], 0) == 0;
    var done := Complete(env, checked, 0);
    assert done.iters == [1];
    assert Monitor(env, polled, polled.queue, 0) == Monitor(env, done, polled.queue, 1) == done;
    assert Rounds(env, s, 1) == Rounds(env, done, 0);
  }
}
