/** When a run over completion edges comes to its normal end, which tests have run. */
module RunnerCoverage {
  import opened RunnerModel
  import opened RunnerSafety
  import opened RunnerOnce

  /** Reported running or completed by some poll. */
  predicate SeenUp(log: seq<Event>, t: nat) {
    Polled(t, true) in log
  }

  /** What is still to be done: tests whose completion has not yet started their dependents, tests
      whose poll has not, and tests that wait for their next iteration. */
  datatype Debt = Debt(comp: set<nat>, init: set<nat>, idle: set<nat>)

  const NOTHING := Debt({}, {}, {})

  /** Finished and polled tests have started their dependents, and started tests are live or
      finished, but for the debt. */
  ghost predicate Settled(env: Env, log: seq<Event>, debt: Debt) {
    && (forall t | 0 <= t < |env.tests| && StartPostComp in env.tests[t].deps ::
          var a := env.tests[t].deps[StartPostComp]; Finished(env, log, a) && a !in debt.comp ==> Started(log, t))
    && (forall t | 0 <= t < |env.tests| && StartPostInit in env.tests[t].deps ::
          var a := env.tests[t].deps[StartPostInit]; SeenUp(log, a) && a !in debt.init ==> Started(log, t))
    && (forall t | 0 <= t < |env.tests| && Started(log, t) && t !in debt.idle :: LiveIn(log, t) || Finished(env, log, t))
  }

  ghost predicate RootsStarted(env: Env, log: seq<Event>, n: nat) {
    forall t | 0 <= t < n && t < |env.tests| && IsRoot(env.tests[t]) :: Started(log, t)
  }

  ghost predicate OnTrack(env: Env, s: State, debt: Debt) {
    Good(env, s) && (!s.halted ==> Settled(env, s.log, debt) && RootsStarted(env, s.log, |env.tests|))
  }

  ghost predicate LogGrown(s: State, r: State) {
    |s.log| <= |r.log| && r.log[..|s.log|] == s.log
  }

  function Owe(env: Env, e: Event, debt: Debt): Debt {
    match e
    case Submitted(t, _) => debt.(idle := debt.idle - {t})
    case Completed(t, _, _) =>
      if FinalCompletion(env, e, t) then debt.(comp := debt.comp + {t}) else debt.(idle := debt.idle + {t})
    case Polled(t, true) => debt.(init := debt.init + {t})
    case _ => debt
  }

  lemma SettledExtend(env: Env, log: seq<Event>, e: Event, debt: Debt)
    requires Settled(env, log, debt)
    ensures Settled(env, log + [e], Owe(env, e, debt))
    ensures forall n | RootsStarted(env, log, n) :: RootsStarted(env, log + [e], n)
  {
    Extend(log, e);
    forall t: nat
      ensures Started(log + [e], t) <==> Started(log, t) || (e.Submitted? && e.test == t)
      ensures Finished(env, log + [e], t) <==> Finished(env, log, t) || FinalCompletion(env, e, t)
    {
      ExtendFacts(env, log, e, t);
    }
  }

  lemma LiveStarted(env: Env, s: State, t: nat)
    requires Good(env, s) && !s.halted && Live(s, t)
    ensures Started(s.log, t)
  {
    LiveWasStarted(s.log, t);
  }

  /** One turn of the scan for dependents: afterwards test `i` has started if it depends on `a`. */
  lemma StepSettled(env: Env, s: State, kind: DepKind, a: nat, i: nat, debt: Debt)
    requires OnTrack(env, s, debt) && i < |env.tests| && Trigger(env, s, kind, a) && debt.idle == {}
    ensures var r := if !Live(s, i) && DependsOn(env.tests[i], kind, a) then Submit(env, s, i) else s;
            && OnTrack(env, r, debt) && Trigger(env, r, kind, a) && LogGrown(s, r) && (s.halted ==> r.halted)
            && (!r.halted && DependsOn(env.tests[i], kind, a) ==> Started(r.log, i))
  {
    if !Live(s, i) && DependsOn(env.tests[i], kind, a) {
      StartSettled(env, s, kind, a, i, debt);
    } else if !s.halted && Live(s, i) {
      LiveStarted(env, s, i);
    }
  }

  lemma StartSettled(env: Env, s: State, kind: DepKind, a: nat, i: nat, debt: Debt)
    requires OnTrack(env, s, debt) && i < |env.tests| && Trigger(env, s, kind, a) && debt.idle == {}
    requires !Live(s, i) && DependsOn(env.tests[i], kind, a)
    ensures var r := Submit(env, s, i);
            OnTrack(env, r, debt) && Trigger(env, r, kind, a) && LogGrown(s, r) && (!r.halted ==> Started(r.log, i))
  {
    StartOneGood(env, s, kind, a, i);
    var r, e := Submit(env, s, i), Submitted(i, s.iters[i]);
    if !r.halted {
      assert r.log == s.log + [e];
      SettledExtend(env, s.log, e, debt);
      assert Owe(env, e, debt) == debt;
      ExtendFacts(env, s.log, e, i);
    }
  }

  ghost predicate DependentsStarted(env: Env, r: State, kind: DepKind, a: nat, i: nat) {
    !r.halted ==> forall t | i <= t < |env.tests| && DependsOn(env.tests[t], kind, a) :: Started(r.log, t)
  }

  /** The scan from position `i` on has led from `s` to `r`. */
  ghost predicate Scanned(env: Env, s: State, r: State, kind: DepKind, a: nat, i: nat, debt: Debt) {
    OnTrack(env, r, debt) && LogGrown(s, r) && (s.halted ==> r.halted) && DependentsStarted(env, r, kind, a, i)
  }

  lemma {:induction false} StartDependentsSettled(env: Env, s: State, kind: DepKind, a: nat, i: nat, debt: Debt)
    requires OnTrack(env, s, debt) && i <= |env.tests| && Trigger(env, s, kind, a) && debt.idle == {}
    ensures Scanned(env, s, StartDependents(env, s, kind, a, i), kind, a, i, debt)
    decreases |env.tests| - i
  {
    if i < |env.tests| {
      var s' := if !Live(s, i) && DependsOn(env.tests[i], kind, a) then Submit(env, s, i) else s;
      StepSettled(env, s, kind, a, i, debt);
      StartDependentsSettled(env, s', kind, a, i + 1, debt);
      ScannedFurther(env, s, s', StartDependents(env, s', kind, a, i + 1), kind, a, i, debt);
    }
  }

  lemma ScannedFurther(env: Env, s: State, s': State, r: State, kind: DepKind, a: nat, i: nat, debt: Debt)
    requires i < |env.tests| && LogGrown(s, s') && (s.halted ==> s'.halted)
    requires !s'.halted && DependsOn(env.tests[i], kind, a) ==> Started(s'.log, i)
    requires Scanned(env, s', r, kind, a, i + 1, debt)
    ensures Scanned(env, s, r, kind, a, i, debt)
  {
    assert r.log[..|s.log|] == r.log[..|s'.log|][..|s.log|];
    if !r.halted && DependsOn(env.tests[i], kind, a) {
      StartedPrefix(r.log, |s'.log|, i);
    }
  }

  lemma {:induction false} KillDependentsSettled(env: Env, s: State, a: nat, k: nat)
    requires OnTrack(env, s, NOTHING) && !s.halted && k <= |s.queue| && JustFinished(env, s.log, a)
    ensures OnTrack(env, KillDependents(env, s, a, k), NOTHING)
    decreases |s.queue| - k
  {
    if k < |s.queue| {
      var t := s.queue[k].test;
      if DependsOn(env.tests[t], EndPostComp, a) {
        KillOneGood(env, s, a, k);
        SettledExtend(env, s.log, Killed(t), NOTHING);
        KillDependentsSettled(env, Note(s, Killed(t)).(queue := s.queue[k := s.queue[k].(terminated := true)]), a, k + 1);
      } else {
        KillDependentsSettled(env, s, a, k + 1);
      }
    }
  }

  lemma HandleDependenciesSettled(env: Env, s: State, a: nat)
    requires OnTrack(env, s, NOTHING.(comp := {a})) && !s.halted && JustFinished(env, s.log, a)
    ensures OnTrack(env, HandleDependencies(env, s, a), NOTHING)
  {
    StartDependentsGood(env, s, StartPostComp, a, 0);
    StartDependentsSettled(env, s, StartPostComp, a, 0, NOTHING.(comp := {a}));
    var r := StartDependents(env, s, StartPostComp, a, 0);
    if !r.halted {
      KillDependentsSettled(env, r, a, 0);
    }
  }

  /** No test is a design-space step: completions are followed by re-runs or dependents. */
  predicate StepFree(env: Env) {
    forall t | 0 <= t < |env.tests| :: env.tests[t].step <= 0
  }

  /** The job leaves the list: now `t` owes its dependents, or waits for its next iteration. */
  lemma RemoveSettled(env: Env, s: State, k: nat)
    requires StepFree(env) && OnTrack(env, s, NOTHING) && !s.halted && k < |s.queue| && JustDone(s.log, s.queue[k].test)
    ensures var t := s.queue[k].test;
            var e := Completed(t, s.iters[t], s.queue[k].terminated);
            var r := TakeOff(s, k);
            && Good(env, r) && !Live(r, t) && RootsStarted(env, r.log, |env.tests|)
            && (if FinalCompletion(env, e, t) then Settled(env, r.log, NOTHING.(comp := {t})) && JustFinished(env, r.log, t)
                else Settled(env, r.log, NOTHING.(idle := {t})))
  {
    var t := s.queue[k].test;
    var e := Completed(t, s.iters[t], s.queue[k].terminated);
    RemoveGood(env, s, k);
    SettledExtend(env, s.log, e, NOTHING);
    Extend(s.log, e);
    assert {} + {t} == {t};
  }

  lemma RerunSettled(env: Env, s: State, t: nat, i: nat)
    requires Good(env, s) && !s.halted && t < |env.tests| && !Live(s, t) && MayRerun(env, s.log, t, i)
    requires Settled(env, s.log, NOTHING.(idle := {t})) && RootsStarted(env, s.log, |env.tests|)
    ensures OnTrack(env, Submit(env, s.(iters := s.iters[t := i]), t), NOTHING)
  {
    RerunGood(env, s, t, i);
    SettledExtend(env, s.log, Submitted(t, i), NOTHING.(idle := {t}));
    assert {t} - {t} == {};
  }

  lemma CompleteSettled(env: Env, s: State, t: nat)
    requires StepFree(env) && OnTrack(env, s, NOTHING) && !s.halted && Live(s, t) && JustDone(s.log, t)
    ensures OnTrack(env, Complete(env, s, t), NOTHING)
  {
    var k := FindJob(s.queue, t);
    var e := Completed(t, s.iters[t], s.queue[k].terminated);
    var s' := TakeOff(s, k);
    RemoveSettled(env, s, k);
    if FinalCompletion(env, e, t) {
      HandleDependenciesSettled(env, s', t);
    } else {
      Extend(s.log, e);
      RerunSettled(env, s', t, s.iters[t] + 1);
    }
  }

  lemma NoteSettled(env: Env, s: State, e: Event)
    requires OnTrack(env, s, NOTHING) && !s.halted && MayHappen(env, s.log, e)
    requires e.Polled? || e.Checked? || e.Judged? || e.Cancelled?
    ensures OnTrack(env, Note(s, e), Owe(env, e, NOTHING))
  {
    NoteGood(env, s, e);
    SettledExtend(env, s.log, e, NOTHING);
  }

  lemma SettleSettled(env: Env, s: State, t: nat)
    requires StepFree(env) && OnTrack(env, s, NOTHING) && !s.halted && Live(s, t)
    requires |s.log| > 0 && s.log[|s.log| - 1] == Checked(t, true)
    ensures OnTrack(env, Settle(env, s, t), NOTHING)
  {
    SettleGood(env, s, t);
    if env.dryRun {
      CompleteSettled(env, s, t);
    } else if !Settle(env, s, t).halted {
      var e := Judged(t, Ask(env, s) == Yes);
      NoteSettled(env, s, e);
      Extend(s.log, e);
      assert Note(s, e).log[|s.log| - 1] == Checked(t, true);
      assert Live(Note(s, e), t);
      CompleteSettled(env, Note(s, e), t);
    }
  }

  lemma {:induction false} MonitorSettled(env: Env, s: State, snapshot: seq<LiveJob>, k: nat)
    requires StepFree(env) && OnTrack(env, s, NOTHING) && k <= |snapshot| && Distinct(snapshot) && AllLive(s, snapshot, k)
    requires forall i | 0 <= i < |snapshot| :: snapshot[i].test < |env.tests|
    ensures OnTrack(env, Monitor(env, s, snapshot, k), NOTHING)
    decreases |snapshot| - k
  {
    if k < |snapshot| && !s.halted && Ask(env, s) != Raise {
      var t, done := snapshot[k].test, Ask(env, s) == Yes;
      assert Live(s, t);
      var e := Checked(t, done);
      NoteSettled(env, s, e);
      Extend(s.log, e);
      var s' := Note(s, e);
      assert Live(s', t);
      var r := if done then Settle(env, s', t) else s';
      if done {
        SettleSettled(env, s', t);
        SettleGood(env, s', t);
      }
      forall i | k + 1 <= i < |snapshot| ensures Live(r, snapshot[i].test) {
        assert Live(s, snapshot[i].test);
        assert Live(s', snapshot[i].test);
      }
      MonitorSettled(env, r, snapshot, k + 1);
    }
  }

  /** One polled job pays its debt before the next one is polled. */
  lemma PollOneSettled(env: Env, s: State, t: nat)
    requires OnTrack(env, s, NOTHING) && !s.halted && Live(s, t) && Ask(env, s) != Raise
    ensures var up := Ask(env, s) == Yes;
            var s' := Note(s, Polled(t, up));
            var r := if up then StartDependents(env, s', StartPostInit, t, 0) else s';
            OnTrack(env, r, NOTHING) && Grown(s, r) && LogGrown(s', r)
  {
    var up := Ask(env, s) == Yes;
    var e := Polled(t, up);
    var s' := Note(s, e);
    NoteSettled(env, s, e);
    Extend(s.log, e);
    if up {
      assert Owe(env, e, NOTHING) == NOTHING.(init := {t});
      assert Trigger(env, s', StartPostInit, t);
      StartDependentsSettled(env, s', StartPostInit, t, 0, NOTHING.(init := {t}));
      StartDependentsGood(env, s', StartPostInit, t, 0);
    }
  }

  lemma {:induction false} PollInitSettled(env: Env, s: State, snapshot: seq<LiveJob>, k: nat)
    requires OnTrack(env, s, NOTHING) && k <= |snapshot| && AllLive(s, snapshot, k)
    ensures OnTrack(env, PollInit(env, s, snapshot, k), NOTHING)
    decreases |snapshot| - k
  {
    if k < |snapshot| && !s.halted && Ask(env, s) != Raise {
      var t, up := snapshot[k].test, Ask(env, s) == Yes;
      assert Live(s, t);
      PollOneSettled(env, s, t);
      var s' := Note(s, Polled(t, up));
      var r := if up then StartDependents(env, s', StartPostInit, t, 0) else s';
      forall i | k + 1 <= i < |snapshot| ensures Live(r, snapshot[i].test) {
        GrownKeepsLive(s, r, snapshot[i].test);
      }
      PollInitSettled(env, r, snapshot, k + 1);
    }
  }

  lemma RoundSettled(env: Env, s: State)
    requires StepFree(env) && OnTrack(env, s, NOTHING)
    ensures OnTrack(env, Round(env, s), NOTHING)
  {
    forall i | 0 <= i < |s.queue| ensures Live(s, s.queue[i].test) {}
    PollInitSettled(env, s, s.queue, 0);
    var s' := PollInit(env, s, s.queue, 0);
    forall i | 0 <= i < |s'.queue| ensures Live(s', s'.queue[i].test) {}
    MonitorSettled(env, s', s'.queue, 0);
  }

  lemma {:induction false} RoundsSettled(env: Env, s: State, rounds: nat)
    requires StepFree(env) && OnTrack(env, s, NOTHING)
    ensures OnTrack(env, Rounds(env, s, rounds), NOTHING)
    decreases rounds
  {
    if rounds > 0 && !s.halted && s.queue != [] {
      RoundSettled(env, s);
      RoundsSettled(env, Round(env, s), rounds - 1);
    }
  }

  lemma {:induction false} RootsSettled(env: Env, s: State, i: nat)
    requires Good(env, s) && i <= |env.tests| && RootsBefore(s, i)
    requires !s.halted ==> Settled(env, s.log, NOTHING) && RootsStarted(env, s.log, i)
    ensures OnTrack(env, SubmitRoots(env, s, i), NOTHING)
    decreases |env.tests| - i
  {
    if i < |env.tests| {
      var s' := if IsRoot(env.tests[i]) then Submit(env, s, i) else s;
      if IsRoot(env.tests[i]) {
        RootSettled(env, s, i);
      }
      RootsSettled(env, s', i + 1);
    }
  }

  lemma RootSettled(env: Env, s: State, i: nat)
    requires Good(env, s) && i < |env.tests| && RootsBefore(s, i) && IsRoot(env.tests[i])
    requires !s.halted ==> Settled(env, s.log, NOTHING) && RootsStarted(env, s.log, i)
    ensures var r := Submit(env, s, i);
            && Good(env, r) && RootsBefore(r, i + 1)
            && (!r.halted ==> Settled(env, r.log, NOTHING) && RootsStarted(env, r.log, i + 1))
  {
    SubmitRootGood(env, s, i);
    var r, e := Submit(env, s, i), Submitted(i, s.iters[i]);
    if !r.halted {
      SettledExtend(env, s.log, e, NOTHING);
      ExtendFacts(env, s.log, e, i);
      assert RootsStarted(env, s.log + [e], i) && r.log == s.log + [e];
    }
  }

  lemma RunSettled(env: Env, rounds: nat)
    requires StepFree(env)
    ensures OnTrack(env, Run(env, rounds), NOTHING)
  {
    RootsSettled(env, Fresh(env), 0);
    RoundsSettled(env, SubmitRoots(env, Fresh(env), 0), rounds);
  }

  // ----- A run that ends normally -----

  /** `run` returned: nothing raised and nothing is left on the list. */
  predicate EndedNormally(r: State) {
    !r.halted && r.queue == []
  }

  /** No start is missed: at a normal end every test without a start dependency was submitted, so was
      every test whose dependency finished or was polled as up, and whatever was submitted finished. */
  lemma NoStartIsMissed(env: Env, rounds: nat, t: nat)
    requires StepFree(env) && EndedNormally(Run(env, rounds)) && t < |env.tests|
    ensures var log, deps := Run(env, rounds).log, env.tests[t].deps;
            && (IsRoot(env.tests[t]) ==> Started(log, t))
            && (StartPostComp in deps && Finished(env, log, deps[StartPostComp]) ==> Started(log, t))
            && (StartPostInit in deps && SeenUp(log, deps[StartPostInit]) ==> Started(log, t))
            && (Started(log, t) ==> Finished(env, log, t))
  {
    RunSettled(env, rounds);
    assert !Live(Run(env, rounds), t);
  }

  /** Start edges go up in rank. */
  ghost predicate Ranked(env: Env, rank: nat -> nat) {
    forall t, kind | 0 <= t < |env.tests| && kind in env.tests[t].deps && kind != EndPostComp
      :: rank(env.tests[t].deps[kind]) < rank(t)
  }

  ghost predicate Acyclic(env: Env) {
    exists rank :: Ranked(env, rank)
  }

  lemma {:induction false} RankedStarted(env: Env, s: State, rank: nat -> nat, t: nat)
    requires WellFormed(env) && CompletionOnly(env) && OnTrack(env, s, NOTHING) && EndedNormally(s) && Ranked(env, rank)
    requires t < |env.tests|
    ensures Started(s.log, t)
    decreases rank(t)
  {
    if StartPostComp in env.tests[t].deps {
      var a := env.tests[t].deps[StartPostComp];
      RankedStarted(env, s, rank, a);
      assert !Live(s, a);
    }
  }

  /** A normal end: with acyclic start edges every test was submitted, and one that no dependency
      killed was submitted with every iteration. */
  lemma EveryIterationRuns(env: Env, rounds: nat, t: nat)
    requires WellFormed(env) && CompletionOnly(env) && EndedNormally(Run(env, rounds)) && Acyclic(env) && t < |env.tests|
    ensures Started(Run(env, rounds).log, t)
    ensures !WasKilled(Run(env, rounds).log, t)
            ==> Iterations(Run(env, rounds).log, t) == Range(env.tests[t].first, Limit(env.tests[t]))
  {
    var r := Run(env, rounds);
    RunSettled(env, rounds);
    var rank :| Ranked(env, rank);
    RankedStarted(env, r, rank, t);
    if !WasKilled(r.log, t) {
      EndedRunIsWhole(env, r, t);
    }
  }

  lemma EndedRunIsWhole(env: Env, r: State, t: nat)
    requires WellFormed(env) && NoneAwaited(env) && OnTrack(env, r, NOTHING) && EndedNormally(r) && t < |env.tests|
    requires Started(r.log, t) && !WasKilled(r.log, t)
    ensures Iterations(r.log, t) == Range(env.tests[t].first, Limit(env.tests[t]))
  {
    LegalIsOnce(env, r.log);
    assert Once(env, r.log, t);
    assert !Live(r, t);
  }

  // ----- Acyclicity is exactly what is needed -----

  lemma {:induction false} FirstStart(log: seq<Event>, t: nat) returns (p: nat)
    requires Started(log, t)
    ensures p < |log| && log[p].Submitted? && log[p].test == t && !Started(log[..p], t)
    decreases |log|
  {
    p :| 0 <= p < |log| && log[p].Submitted? && log[p].test == t;
    if Started(log[..p], t) {
      var q := FirstStart(log[..p], t);
      assert log[..p][..q] == log[..q];
      p := q;
    }
  }

  /** Where `t` first starts; past the end when it never does. */
  ghost function StartPosition(log: seq<Event>, t: nat): (p: nat)
    ensures p <= |log|
    ensures Started(log, t) ==> p < |log| && log[p].Submitted? && log[p].test == t && !Started(log[..p], t)
  {
    if Started(log, t) then
      (FirstStartExists(log, t);
       var p :| 0 <= p < |log| && log[p].Submitted? && log[p].test == t && !Started(log[..p], t);
       p)
    else |log|
  }

  lemma FirstStartExists(log: seq<Event>, t: nat)
    requires Started(log, t)
    ensures exists p :: 0 <= p < |log| && log[p].Submitted? && log[p].test == t && !Started(log[..p], t)
  {
    var p := FirstStart(log, t);
  }

  lemma StartsAfterDependency(env: Env, log: seq<Event>, t: nat)
    requires CompletionOnly(env) && Legal(env, log) && t < |env.tests|
    requires Started(log, t) && StartPostComp in env.tests[t].deps
    ensures StartPosition(log, env.tests[t].deps[StartPostComp]) < StartPosition(log, t)
  {
    var a, p := env.tests[t].deps[StartPostComp], StartPosition(log, t);
    FirstIsNoRerun(env, log, p);
    var q := JustFinishedWitness(env, log[..p], a);
    assert log[..p][q] == log[q];
    LegalPrefix(env, log, q);
    LiveWasStarted(log[..q], a);
    StartedPrefix(log, q, a);
    var first := StartPosition(log, a);
    if first >= q {
      assert log[..first][..q] == log[..q];
      StartedPrefix(log[..first], q, a);
    }
  }

  /** A run that ends normally has submitted every test if and only if the start edges are acyclic. */
  lemma AllStartedIffAcyclic(env: Env, rounds: nat)
    requires WellFormed(env) && CompletionOnly(env) && EndedNormally(Run(env, rounds))
    ensures (forall t | 0 <= t < |env.tests| :: Started(Run(env, rounds).log, t)) <==> Acyclic(env)
  {
    var log := Run(env, rounds).log;
    RunIsLegal(env, rounds);
    if forall t | 0 <= t < |env.tests| :: Started(log, t) {
      var rank := (t: nat) => StartPosition(log, t);
      forall t, kind | 0 <= t < |env.tests| && kind in env.tests[t].deps && kind != EndPostComp
        ensures rank(env.tests[t].deps[kind]) < rank(t)
      {
        StartsAfterDependency(env, log, t);
      }
      assert Ranked(env, rank);
    }
    if Acyclic(env) {
      forall t | 0 <= t < |env.tests| ensures Started(log, t) {
        EveryIterationRuns(env, rounds, t);
      }
    }
  }
}
