/** Safety of every run: whatever the cluster answers, each entry of the log is justified by the
    entries before it, and the queue is exactly what the log says. */
module RunnerSafety {
  import opened RunnerModel

  // ----- Reading a log backwards -----

  /** Submitted and not completed since. */
  predicate LiveIn(log: seq<Event>, t: nat) {
    if log == [] then false
    else
      match log[|log| - 1]
      case Submitted(u, _) => u == t || LiveIn(log[..|log| - 1], t)
      case Completed(u, _, _) => u != t && LiveIn(log[..|log| - 1], t)
      case _ => LiveIn(log[..|log| - 1], t)
  }

  /** Killed by a dependency since the last submission. */
  predicate KilledIn(log: seq<Event>, t: nat) {
    if log == [] then false
    else
      match log[|log| - 1]
      case Submitted(u, _) => u != t && KilledIn(log[..|log| - 1], t)
      case Killed(u) => u == t || KilledIn(log[..|log| - 1], t)
      case _ => KilledIn(log[..|log| - 1], t)
  }

  /** The iteration last submitted; `first` before any submission. */
  function IterationIn(log: seq<Event>, t: nat, first: nat): nat {
    if log == [] then first
    else if log[|log| - 1].Submitted? && log[|log| - 1].test == t then log[|log| - 1].iteration
    else IterationIn(log[..|log| - 1], t, first)
  }

  /** `e` completes the last iteration of `t`, or ends it because it was killed. */
  predicate FinalCompletion(env: Env, e: Event, t: nat) {
    && e.Completed? && e.test == t < |env.tests| && env.tests[t].step <= 0
    && (e.terminated || e.iteration + 1 >= env.tests[t].iterations)
  }

  /** `t` has just finished for good: since then only its dependents were started or killed. */
  predicate JustFinished(env: Env, log: seq<Event>, t: nat) {
    |log| > 0 &&
    var e := log[|log| - 1];
    FinalCompletion(env, e, t) || ((e.Submitted? || e.Killed?) && JustFinished(env, log[..|log| - 1], t))
  }

  /** A poll has just reported `t` running or completed: since then only tests were started. */
  predicate JustUp(log: seq<Event>, t: nat) {
    |log| > 0 &&
    var e := log[|log| - 1];
    e == Polled(t, true) || (e.Submitted? && JustUp(log[..|log| - 1], t))
  }

  /** The monitor has just been told that `t` is completed. */
  predicate JustDone(log: seq<Event>, t: nat) {
    |log| > 0 &&
    var e := log[|log| - 1];
    e == Checked(t, true) || (e.Judged? && e.test == t && |log| > 1 && log[|log| - 2] == Checked(t, true))
  }

  predicate OnlySubmissions(log: seq<Event>) {
    forall p | 0 <= p < |log| :: log[p].Submitted?
  }

  // ----- What may happen next -----

  predicate MayRerun(env: Env, log: seq<Event>, t: nat, iteration: nat)
    requires t < |env.tests|
  {
    && |log| > 0 && iteration > 0
    && log[|log| - 1] == Completed(t, iteration - 1, false)
    && env.tests[t].step <= 0 && iteration < env.tests[t].iterations
  }

  predicate MayStart(env: Env, log: seq<Event>, t: nat)
    requires t < |env.tests|
  {
    var deps := env.tests[t].deps;
    || (IsRoot(env.tests[t]) && OnlySubmissions(log) && (forall p | 0 <= p < |log| :: log[p].test != t))
    || (StartPostInit in deps && LiveIn(log, deps[StartPostInit]) && JustUp(log, deps[StartPostInit]))
    || (StartPostComp in deps && JustFinished(env, log, deps[StartPostComp]))
  }

  predicate MayHappen(env: Env, log: seq<Event>, e: Event) {
    && e.test < |env.tests|
    && match e
       case Submitted(t, i) =>
         && !LiveIn(log, t)
         && (MayRerun(env, log, t, i) || (MayStart(env, log, t) && i == IterationIn(log, t, env.tests[t].first)))
       case Completed(t, i, terminated) =>
         && LiveIn(log, t) && JustDone(log, t)
         && i == IterationIn(log, t, env.tests[t].first) && terminated == KilledIn(log, t)
       case Killed(t) =>
         && LiveIn(log, t)
         && EndPostComp in env.tests[t].deps && JustFinished(env, log, env.tests[t].deps[EndPostComp])
       case Judged(t, _) => LiveIn(log, t) && |log| > 0 && log[|log| - 1] == Checked(t, true)
       case _ => LiveIn(log, e.test)
  }

  /** Every entry was allowed when it was made. */
  predicate Legal(env: Env, log: seq<Event>) {
    log == [] || (Legal(env, log[..|log| - 1]) && MayHappen(env, log[..|log| - 1], log[|log| - 1]))
  }

  // ----- The invariant -----

  predicate Distinct(queue: seq<LiveJob>) {
    forall i, j | 0 <= i < j < |queue| :: queue[i].test != queue[j].test
  }

  /** The state is what the log says. */
  ghost predicate Tied(env: Env, s: State)
    requires InScenario(env, s)
  {
    && (forall t: nat {:trigger Live(s, t)} {:trigger LiveIn(s.log, t)} :: Live(s, t) <==> LiveIn(s.log, t))
    && (forall k | 0 <= k < |s.queue| :: s.queue[k].terminated == KilledIn(s.log, s.queue[k].test))
    && (forall t | 0 <= t < |env.tests| :: s.iters[t] == IterationIn(s.log, t, env.tests[t].first))
  }

  ghost predicate Good(env: Env, s: State) {
    InScenario(env, s) && Legal(env, s.log) && Distinct(s.queue) && (!s.halted ==> Tied(env, s))
  }

  // ----- Each primitive keeps it -----

  lemma Extend(log: seq<Event>, e: Event)
    ensures (log + [e])[..|log|] == log && (log + [e])[|log|] == e && |log + [e]| == |log| + 1
  {
  }

  lemma NoteGood(env: Env, s: State, e: Event)
    requires Good(env, s) && !s.halted && MayHappen(env, s.log, e)
    requires e.Polled? || e.Checked? || e.Judged? || e.Cancelled?
    ensures Good(env, Note(s, e))
  {
    Extend(s.log, e);
    var r := Note(s, e);
    forall t: nat ensures Live(r, t) <==> LiveIn(r.log, t) {
      assert Live(r, t) == Live(s, t);
    }
  }

  /** `i` is the iteration `t` is submitted with: the current one, or the next one when it re-runs. */
  lemma SubmitGood(env: Env, s: State, t: nat, i: nat)
    requires Good(env, s) && t < |env.tests|
    requires !s.halted ==> !Live(s, t)
    requires !s.halted ==> MayRerun(env, s.log, t, i) || (MayStart(env, s.log, t) && i == s.iters[t])
    ensures Good(env, Submit(env, s.(iters := s.iters[t := i]), t))
  {
    var e := Submitted(t, i);
    Extend(s.log, e);
    var r := Submit(env, s.(iters := s.iters[t := i]), t);
    if !r.halted {
      forall u: nat ensures Live(r, u) <==> LiveIn(r.log, u) {
        if Live(s, u) {
          var k :| 0 <= k < |s.queue| && s.queue[k].test == u;
          assert r.queue[k].test == u;
        }
        if u == t {
          assert r.queue[|s.queue|].test == u;
        }
      }
    }
  }

  /** The queue only grows at its end while dependents are started. */
  ghost predicate Grown(s: State, r: State) {
    |s.queue| <= |r.queue| && r.queue[..|s.queue|] == s.queue && r.iters == s.iters && (s.halted ==> r == s)
  }

  /** The reason `source` gives its dependents to start. */
  ghost predicate Trigger(env: Env, s: State, kind: DepKind, source: nat) {
    && kind != EndPostComp
    && (!s.halted && kind == StartPostInit ==> LiveIn(s.log, source) && JustUp(s.log, source))
    && (!s.halted && kind == StartPostComp ==> JustFinished(env, s.log, source))
  }

  lemma StartOneGood(env: Env, s: State, kind: DepKind, source: nat, i: nat)
    requires Good(env, s) && i < |env.tests| && Trigger(env, s, kind, source)
    requires !Live(s, i) && DependsOn(env.tests[i], kind, source)
    ensures var r := Submit(env, s, i); Good(env, r) && Trigger(env, r, kind, source) && Grown(s, r)
  {
    assert s.iters == s.iters[i := s.iters[i]];
    SubmitGood(env, s, i, s.iters[i]);
    Extend(s.log, Submitted(i, s.iters[i]));
  }

  lemma {:induction false} StartDependentsGood(env: Env, s: State, kind: DepKind, source: nat, i: nat)
    requires Good(env, s) && i <= |env.tests| && Trigger(env, s, kind, source)
    ensures var r := StartDependents(env, s, kind, source, i); Good(env, r) && Trigger(env, r, kind, source) && Grown(s, r)
    decreases |env.tests| - i
  {
    if i < |env.tests| {
      if !Live(s, i) && DependsOn(env.tests[i], kind, source) {
        StartOneGood(env, s, kind, source, i);
        var s' := Submit(env, s, i);
        StartDependentsGood(env, s', kind, source, i + 1);
        GrownTransitive(s, s', StartDependents(env, s', kind, source, i + 1));
      } else {
        StartDependentsGood(env, s, kind, source, i + 1);
      }
    }
  }

  lemma GrownTransitive(a: State, b: State, c: State)
    requires Grown(a, b) && Grown(b, c)
    ensures Grown(a, c)
  {
    assert c.queue[..|a.queue|] == c.queue[..|b.queue|][..|a.queue|];
  }

  /** Only the tests before position `i` have been touched. */
  ghost predicate RootsBefore(s: State, i: nat) {
    && OnlySubmissions(s.log)
    && (forall p | 0 <= p < |s.log| :: s.log[p].test < i)
    && (forall k | 0 <= k < |s.queue| :: s.queue[k].test < i)
  }

  lemma SubmitRootGood(env: Env, s: State, i: nat)
    requires Good(env, s) && i < |env.tests| && RootsBefore(s, i) && IsRoot(env.tests[i])
    ensures Good(env, Submit(env, s, i)) && RootsBefore(Submit(env, s, i), i + 1)
  {
    assert MayStart(env, s.log, i) && !Live(s, i);
    assert s.iters == s.iters[i := s.iters[i]];
    SubmitGood(env, s, i, s.iters[i]);
    RootsBeforeNext(env, s, i);
  }

  lemma RootsBeforeNext(env: Env, s: State, i: nat)
    requires InScenario(env, s) && i < |env.tests| && RootsBefore(s, i)
    ensures RootsBefore(Submit(env, s, i), i + 1)
  {
  }

  lemma {:induction false} SubmitRootsGood(env: Env, s: State, i: nat)
    requires Good(env, s) && i <= |env.tests| && RootsBefore(s, i)
    ensures Good(env, SubmitRoots(env, s, i))
    decreases |env.tests| - i
  {
    if i < |env.tests| {
      if IsRoot(env.tests[i]) {
        SubmitRootGood(env, s, i);
      }
      SubmitRootsGood(env, if IsRoot(env.tests[i]) then Submit(env, s, i) else s, i + 1);
    }
  }

  /** Every listed test is live. */
  ghost predicate AllLive(s: State, snapshot: seq<LiveJob>, k: nat) {
    forall i {:trigger snapshot[i]} | k <= i < |snapshot| :: Live(s, snapshot[i].test)
  }

  lemma GrownKeepsLive(s: State, r: State, t: nat)
    requires Grown(s, r) && Live(s, t)
    ensures Live(r, t)
  {
    var k :| 0 <= k < |s.queue| && s.queue[k].test == t;
    assert r.queue[..|s.queue|][k] == r.queue[k];
  }

  lemma {:induction false} PollInitGood(env: Env, s: State, snapshot: seq<LiveJob>, k: nat)
    requires Good(env, s) && k <= |snapshot| && AllLive(s, snapshot, k)
    ensures var r := PollInit(env, s, snapshot, k); Good(env, r) && Grown(s, r)
    decreases |snapshot| - k
  {
    if k < |snapshot| && !s.halted && Ask(env, s) != Raise {
      var t, up := snapshot[k].test, Ask(env, s) == Yes;
      assert Live(s, t);
      var s' := Note(s, Polled(t, up));
      NoteGood(env, s, Polled(t, up));
      Extend(s.log, Polled(t, up));
      assert LiveIn(s'.log, t) && (up ==> JustUp(s'.log, t));
      var s'' := if up then StartDependents(env, s', StartPostInit, t, 0) else s';
      if up {
        StartDependentsGood(env, s', StartPostInit, t, 0);
      }
      assert Grown(s, s'');
      forall i | k + 1 <= i < |snapshot| ensures Live(s'', snapshot[i].test) {
        GrownKeepsLive(s, s'', snapshot[i].test);
      }
      PollInitGood(env, s'', snapshot, k + 1);
      GrownTransitive(s, s'', PollInit(env, s'', snapshot, k + 1));
    }
  }

  /** The queue keeps its tests and their order; only the terminated marks may change. */
  ghost predicate SameTests(s: State, r: State) {
    |r.queue| == |s.queue| && forall k | 0 <= k < |s.queue| :: r.queue[k].test == s.queue[k].test
  }

  lemma KillOneGood(env: Env, s: State, source: nat, k: nat)
    requires Good(env, s) && !s.halted && k < |s.queue| && JustFinished(env, s.log, source)
    requires DependsOn(env.tests[s.queue[k].test], EndPostComp, source)
    ensures var r := Note(s, Killed(s.queue[k].test)).(queue := s.queue[k := s.queue[k].(terminated := true)]);
            Good(env, r) && JustFinished(env, r.log, source) && SameTests(s, r)
  {
    var t := s.queue[k].test;
    var r := Note(s, Killed(t)).(queue := s.queue[k := s.queue[k].(terminated := true)]);
    Extend(s.log, Killed(t));
    assert Live(s, t);
    assert SameTests(s, r);
    forall u: nat ensures Live(r, u) <==> LiveIn(r.log, u) {
      SameTestsSameLive(s, r, u);
    }
  }

  lemma SameTestsSameLive(s: State, r: State, u: nat)
    requires SameTests(s, r)
    ensures Live(r, u) == Live(s, u)
  {
    if Live(s, u) {
      var k :| 0 <= k < |s.queue| && s.queue[k].test == u;
      assert r.queue[k].test == u;
    }
  }

  lemma {:induction false} KillDependentsGood(env: Env, s: State, source: nat, k: nat)
    requires Good(env, s) && k <= |s.queue| && !s.halted && JustFinished(env, s.log, source)
    ensures var r := KillDependents(env, s, source, k); Good(env, r) && SameTests(s, r) && r.iters == s.iters && !r.halted
    decreases |s.queue| - k
  {
    if k < |s.queue| {
      if DependsOn(env.tests[s.queue[k].test], EndPostComp, source) {
        KillOneGood(env, s, source, k);
        KillDependentsGood(env, Note(s, Killed(s.queue[k].test)).(queue := s.queue[k := s.queue[k].(terminated := true)]), source, k + 1);
      } else {
        KillDependentsGood(env, s, source, k + 1);
      }
    }
  }

  /** The listed tests other than `t` stay live. */
  ghost predicate KeepsOthers(s: State, r: State, t: nat) {
    forall u: nat {:trigger Live(r, u)} | u != t && Live(s, u) :: Live(r, u)
  }

  lemma HandleDependenciesGood(env: Env, s: State, t: nat)
    requires Good(env, s) && (!s.halted ==> JustFinished(env, s.log, t))
    ensures var r := HandleDependencies(env, s, t); Good(env, r) && forall u: nat {:trigger Live(r, u)} | Live(s, u) :: Live(r, u)
  {
    StartDependentsGood(env, s, StartPostComp, t, 0);
    var s' := StartDependents(env, s, StartPostComp, t, 0);
    var r := HandleDependencies(env, s, t);
    if !s'.halted {
      KillDependentsGood(env, s', t, 0);
    }
    forall u: nat | Live(s, u) ensures Live(r, u) {
      GrownKeepsLive(s, s', u);
      SameTestsSameLive(s', r, u);
    }
  }

  /** Taking the completed job off the list. */
  lemma RemoveGood(env: Env, s: State, k: nat)
    requires Good(env, s) && !s.halted && k < |s.queue| && JustDone(s.log, s.queue[k].test)
    ensures var t := s.queue[k].test;
            var r := TakeOff(s, k);
            Good(env, r) && !Live(r, t) && KeepsOthers(s, r, t)
  {
    var t := s.queue[k].test;
    var e := Completed(t, s.iters[t], s.queue[k].terminated);
    var r := TakeOff(s, k);
    Extend(s.log, e);
    assert Live(s, t);
    forall u: nat ensures Live(r, u) <==> (u != t && Live(s, u)) {
      if u != t && Live(s, u) {
        var i :| 0 <= i < |s.queue| && s.queue[i].test == u;
        assert r.queue[if i < k then i else i - 1].test == u;
      }
    }
  }

  lemma RerunGood(env: Env, s: State, t: nat, i: nat)
    requires Good(env, s) && !s.halted && t < |env.tests| && !Live(s, t) && MayRerun(env, s.log, t, i)
    ensures var r := Submit(env, s.(iters := s.iters[t := i]), t);
            Good(env, r) && forall u: nat {:trigger Live(r, u)} | Live(s, u) :: Live(r, u)
  {
    SubmitGood(env, s, t, i);
    var r := Submit(env, s.(iters := s.iters[t := i]), t);
    forall u: nat | Live(s, u) ensures Live(r, u) {
      var k :| 0 <= k < |s.queue| && s.queue[k].test == u;
      assert r.queue[k].test == u;
    }
  }

  /** The log ends with the completion of `t`. */
  predicate JustCompleted(s: State, t: nat, terminated: bool) {
    t < |s.iters| && s.log != [] && s.log[|s.log| - 1] == Completed(t, s.iters[t], terminated)
  }

  lemma ResumeGood(env: Env, s: State, t: nat, terminated: bool)
    requires Good(env, s) && !s.halted && t < |env.tests| && !Live(s, t) && JustCompleted(s, t, terminated)
    ensures var r := Resume(env, s, t, terminated); Good(env, r) && forall u: nat {:trigger Live(r, u)} | Live(s, u) :: Live(r, u)
  {
    if env.tests[t].step > 0 {
    } else if !terminated && s.iters[t] + 1 < env.tests[t].iterations {
      RerunGood(env, s, t, s.iters[t] + 1);
    } else {
      HandleDependenciesGood(env, s, t);
    }
  }

  lemma CompleteGood(env: Env, s: State, t: nat)
    requires Good(env, s) && !s.halted && Live(s, t) && JustDone(s.log, t)
    ensures var r := Complete(env, s, t); Good(env, r) && KeepsOthers(s, r, t)
  {
    var k := FindJob(s.queue, t);
    var s' := TakeOff(s, k);
    RemoveGood(env, s, k);
    ResumeGood(env, s', t, s.queue[k].terminated);
    forall u: nat | u != t && Live(s, u) ensures Live(Complete(env, s, t), u) {
      assert Live(s', u);
    }
  }

  lemma {:induction false} ShutdownGood(env: Env, s: State, k: nat)
    requires Good(env, s) && !s.halted && k <= |s.queue|
    ensures Good(env, Shutdown(s, k))
    decreases |s.queue| - k
  {
    if k < |s.queue| {
      assert Live(s, s.queue[k].test);
      NoteGood(env, s, Cancelled(s.queue[k].test));
      ShutdownGood(env, Note(s, Cancelled(s.queue[k].test)), k + 1);
    }
  }

  lemma SettleGood(env: Env, s: State, t: nat)
    requires Good(env, s) && !s.halted && Live(s, t) && |s.log| > 0 && s.log[|s.log| - 1] == Checked(t, true)
    ensures var r := Settle(env, s, t); Good(env, r) && KeepsOthers(s, r, t)
  {
    if env.dryRun {
      CompleteGood(env, s, t);
    } else if Ask(env, s) != Raise {
      var ok := Ask(env, s) == Yes;
      var e := Judged(t, ok);
      NoteGood(env, s, e);
      Extend(s.log, e);
      var j := Note(s, e);
      assert (j.log)[|j.log| - 2] == Checked(t, true);
      assert Live(j, t);
      CompleteGood(env, j, t);
      var s' := Complete(env, j, t);
      if !(ok || !env.statusCheck || s'.halted) {
        ShutdownGood(env, s', 0);
      }
      forall u: nat | u != t && Live(s, u) ensures Live(Settle(env, s, t), u) {
        assert Live(j, u);
        assert Live(s', u);
      }
    }
  }

  lemma {:induction false} MonitorGood(env: Env, s: State, snapshot: seq<LiveJob>, k: nat)
    requires Good(env, s) && k <= |snapshot| && Distinct(snapshot) && AllLive(s, snapshot, k)
    requires forall i | 0 <= i < |snapshot| :: snapshot[i].test < |env.tests|
    ensures Good(env, Monitor(env, s, snapshot, k))
    decreases |snapshot| - k
  {
    if k < |snapshot| && !s.halted && Ask(env, s) != Raise {
      var t, done := snapshot[k].test, Ask(env, s) == Yes;
      assert Live(s, t);
      var e := Checked(t, done);
      NoteGood(env, s, e);
      Extend(s.log, e);
      var s' := Note(s, e);
      var r := if done then Settle(env, s', t) else s';
      assert Live(s', t);
      if done {
        SettleGood(env, s', t);
      }
      forall i | k + 1 <= i < |snapshot| ensures Live(r, snapshot[i].test) {
        assert Live(s, snapshot[i].test);
        assert Live(s', snapshot[i].test);
      }
      MonitorGood(env, r, snapshot, k + 1);
    }
  }

  lemma RoundGood(env: Env, s: State)
    requires Good(env, s)
    ensures Good(env, Round(env, s))
  {
    forall i | 0 <= i < |s.queue| ensures Live(s, s.queue[i].test) {}
    PollInitGood(env, s, s.queue, 0);
    var s' := PollInit(env, s, s.queue, 0);
    forall i | 0 <= i < |s'.queue| ensures Live(s', s'.queue[i].test) {}
    MonitorGood(env, s', s'.queue, 0);
  }

  lemma {:induction false} RoundsGood(env: Env, s: State, rounds: nat)
    requires Good(env, s)
    ensures Good(env, Rounds(env, s, rounds))
    decreases rounds
  {
    if rounds > 0 && !s.halted && s.queue != [] {
      RoundGood(env, s);
      RoundsGood(env, Round(env, s), rounds - 1);
    }
  }

  /** Whatever the cluster answers, for as long as the run is watched, every log entry is justified,
      no test is listed twice, and the state is the one the log describes. */
  lemma RunIsLegal(env: Env, rounds: nat)
    ensures Good(env, Run(env, rounds))
  {
    SubmitRootsGood(env, Fresh(env), 0);
    RoundsGood(env, SubmitRoots(env, Fresh(env), 0), rounds);
  }

  lemma {:induction false} OneMoreRound(env: Env, s: State, n: nat)
    requires InScenario(env, s) && !Rounds(env, s, n).halted && Rounds(env, s, n).queue != []
    ensures Rounds(env, s, n + 1) == Round(env, Rounds(env, s, n))
    decreases n
  {
    if n > 0 {
      OneMoreRound(env, Round(env, s), n - 1);
    } else {
      assert Rounds(env, Round(env, s), 0) == Round(env, s);
    }
  }
}
