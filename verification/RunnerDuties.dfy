/** What must follow a log entry: the kills that a completion causes, the shutdown that a failure causes, and
    the questions that every turn asks. */
module RunnerDuties {
  import opened RunnerModel
  import opened RunnerSafety
  import opened RunnerOnce
  import opened RunnerCoverage

  // ----- Marks -----

  /** After the scan from position `k` on exactly the dependents are marked besides those that were. */
  predicate MarkedFrom(env: Env, s: State, r: State, source: nat, k: nat)
    requires InScenario(env, s)
  {
    && |r.queue| == |s.queue|
    && (forall i | 0 <= i < |s.queue| :: r.queue[i].test == s.queue[i].test && r.queue[i].id == s.queue[i].id)
    && (forall i | 0 <= i < |s.queue| ::
          r.queue[i].terminated == (s.queue[i].terminated || (i >= k && DependsOn(env.tests[s.queue[i].test], EndPostComp, source))))
  }

  lemma {:induction false} KillDependentsMark(env: Env, s: State, source: nat, k: nat)
    requires InScenario(env, s) && k <= |s.queue|
    ensures MarkedFrom(env, s, KillDependents(env, s, source, k), source, k)
    ensures KillDependents(env, s, source, k).halted == s.halted && KillDependents(env, s, source, k).iters == s.iters
    decreases |s.queue| - k
  {
    if k < |s.queue| {
      var j := s.queue[k];
      var m := if DependsOn(env.tests[j.test], EndPostComp, source)
               then Note(s, Killed(j.test)).(queue := s.queue[k := j.(terminated := true)]) else s;
      KillDependentsMark(env, m, source, k + 1);
    }
  }

  lemma {:induction false} StartDependentsQueue(env: Env, s: State, kind: DepKind, source: nat, i: nat)
    requires InScenario(env, s) && i <= |env.tests|
    ensures var r := StartDependents(env, s, kind, source, i);
            && s.queue <= r.queue && s.log <= r.log && (s.halted ==> r == s)
            && (forall k | |s.queue| <= k < |r.queue| :: !r.queue[k].terminated)
            && (forall p | |s.log| <= p < |r.log| :: r.log[p].Submitted?)
    decreases |env.tests| - i
  {
    if i < |env.tests| {
      var m := if !Live(s, i) && DependsOn(env.tests[i], kind, source) then Submit(env, s, i) else s;
      StartDependentsQueue(env, m, kind, source, i + 1);
    }
  }

  /** Unless the run is halted, `handle_dependencies` leaves exactly those listed jobs marked that were before or
      must end with `t`, the ones it has just started included. */
  lemma HandleDependenciesMarks(env: Env, s: State, t: nat)
    requires InScenario(env, s) && !HandleDependencies(env, s, t).halted
    ensures var r := HandleDependencies(env, s, t);
            && |s.queue| <= |r.queue|
            && (forall k | 0 <= k < |s.queue| :: r.queue[k].test == s.queue[k].test && r.queue[k].id == s.queue[k].id)
            && (forall k | 0 <= k < |r.queue| :: r.queue[k].terminated
                  == ((k < |s.queue| && s.queue[k].terminated) || DependsOn(env.tests[r.queue[k].test], EndPostComp, t)))
  {
    StartDependentsQueue(env, s, StartPostComp, t, 0);
    KillDependentsMark(env, StartDependents(env, s, StartPostComp, t, 0), t, 0);
  }

  lemma {:induction false} StartsShutNothing(env: Env, s: State, kind: DepKind, source: nat, i: nat)
    requires InScenario(env, s) && i <= |env.tests|
    ensures StartDependents(env, s, kind, source, i).shuttingDown == s.shuttingDown
    decreases |env.tests| - i
  {
    if i < |env.tests| {
      StartsShutNothing(env, if !Live(s, i) && DependsOn(env.tests[i], kind, source) then Submit(env, s, i) else s, kind, source, i + 1);
    }
  }

  lemma {:induction false} KillsShutNothing(env: Env, s: State, source: nat, k: nat)
    requires InScenario(env, s) && k <= |s.queue|
    ensures KillDependents(env, s, source, k).shuttingDown == s.shuttingDown
    decreases |s.queue| - k
  {
    if k < |s.queue| {
      var j := s.queue[k];
      KillsShutNothing(env, if DependsOn(env.tests[j.test], EndPostComp, source)
                            then Note(s, Killed(j.test)).(queue := s.queue[k := j.(terminated := true)]) else s, source, k + 1);
    }
  }

  predicate Running(s: State) {
    !s.halted && !s.exited && !s.shuttingDown
  }

  // ----- The kills after a completion, on the log -----

  /** The questions to the cluster with which a pass goes on to its next job. */
  predicate Asks(e: Event) {
    e.Polled? || e.Checked?
  }

  /** `u` is killed after position `q`, before anything else is asked. */
  predicate KilledSoon(log: seq<Event>, q: nat, u: nat) {
    exists r :: q < r < |log| && log[r] == Killed(u) && forall p | q < p < r :: !Asks(log[p])
  }

  /** Every test that is live at `q` and must end with the one that completes there is killed. */
  ghost predicate Swept(env: Env, log: seq<Event>, q: nat)
    requires q < |log|
  {
    forall u: nat | u < |env.tests| && DependsOn(env.tests[u], EndPostComp, log[q].test) && LiveIn(log[..q + 1], u) :: KilledSoon(log, q, u)
  }

  /** The run ended before it could ask anything more. */
  predicate CutOff(s: State, q: nat) {
    s.halted && forall p | q < p < |s.log| :: !Asks(s.log[p])
  }

  /** An exception, not a shutdown, has ended the run before it could ask anything more. */
  predicate CutShort(s: State, q: nat) {
    s.halted && !s.shuttingDown && forall p | q < p < |s.log| :: !Asks(s.log[p])
  }

  predicate Final(env: Env, e: Event) {
    FinalCompletion(env, e, e.test)
  }

  /** What has been appended to the log of `s` leaves no kill undone. */
  ghost predicate Clears(env: Env, s: State, r: State) {
    && s.log <= r.log && (s.halted ==> r == s)
    && forall q | |s.log| <= q < |r.log| && Final(env, r.log[q]) :: Swept(env, r.log, q) || CutShort(r, q)
  }

  lemma SweptGrows(env: Env, a: seq<Event>, b: seq<Event>, q: nat)
    requires q < |a| && a <= b && Swept(env, a, q)
    ensures Swept(env, b, q)
  {
    assert b[..q + 1] == a[..q + 1];
    forall u: nat | u < |env.tests| && DependsOn(env.tests[u], EndPostComp, b[q].test) && LiveIn(b[..q + 1], u) ensures KilledSoon(b, q, u) {
      assert KilledSoon(a, q, u);
      var r :| q < r < |a| && a[r] == Killed(u) && forall p | q < p < r :: !Asks(a[p]);
      assert b[r] == Killed(u);
    }
  }

  lemma ClearsBoth(env: Env, s: State, m: State, r: State)
    requires Clears(env, s, m) && Clears(env, m, r)
    ensures Clears(env, s, r)
  {
    forall q | |s.log| <= q < |r.log| && Final(env, r.log[q]) ensures Swept(env, r.log, q) || CutShort(r, q) {
      if q < |m.log| {
        assert r.log[q] == m.log[q];
        if Swept(env, m.log, q) {
          SweptGrows(env, m.log, r.log, q);
        }
      }
    }
  }

  lemma QuietClears(env: Env, s: State, r: State)
    requires s.log <= r.log && (s.halted ==> r == s) && forall p | |s.log| <= p < |r.log| :: !r.log[p].Completed?
    ensures Clears(env, s, r)
  {
  }

  /** From position `k` of the list on each dependent is killed, and nothing is asked meanwhile. */
  lemma {:induction false} KillsEach(env: Env, s: State, source: nat, k: nat)
    requires InScenario(env, s) && k <= |s.queue|
    ensures var r := KillDependents(env, s, source, k);
            && s.log <= r.log && (forall p | |s.log| <= p < |r.log| :: r.log[p].Killed?)
            && (forall i | k <= i < |s.queue| && DependsOn(env.tests[s.queue[i].test], EndPostComp, source)
                  :: Killed(s.queue[i].test) in r.log[|s.log|..])
    decreases |s.queue| - k
  {
    if k < |s.queue| {
      var j := s.queue[k];
      var m := if DependsOn(env.tests[j.test], EndPostComp, source)
               then Note(s, Killed(j.test)).(queue := s.queue[k := j.(terminated := true)]) else s;
      KillsEach(env, m, source, k + 1);
      var r := KillDependents(env, m, source, k + 1);
      assert forall i | k < i < |s.queue| :: m.queue[i] == s.queue[i];
      assert forall e | e in r.log[|m.log|..] :: e in r.log[|s.log|..];
      if m != s {
        assert r.log[|s.log|..][0] == m.log[|s.log|] == Killed(j.test);
      }
    }
  }

  /** The dependents of a job that has just completed for good are all killed, unless a start raises. */
  lemma HandleDependenciesClears(env: Env, s: State, t: nat)
    requires Good(env, s) && !s.halted && s.log != [] && FinalCompletion(env, s.log[|s.log| - 1], t)
    ensures var r := HandleDependencies(env, s, t);
            && s.log <= r.log && (forall p | |s.log| <= p < |r.log| :: !r.log[p].Completed? && !Asks(r.log[p]))
            && r.shuttingDown == s.shuttingDown
            && (r.halted || Swept(env, r.log, |s.log| - 1))
  {
    var q, m, r := |s.log| - 1, StartDependents(env, s, StartPostComp, t, 0), HandleDependencies(env, s, t);
    StartDependentsQueue(env, s, StartPostComp, t, 0);
    StartsShutNothing(env, s, StartPostComp, t, 0);
    if !m.halted {
      KillsShutNothing(env, m, t, 0);
      KillsEach(env, m, t, 0);
      assert r.log[..q + 1] == s.log;
      forall u: nat | u < |env.tests| && DependsOn(env.tests[u], EndPostComp, t) && LiveIn(s.log, u) ensures KilledSoon(r.log, q, u) {
        assert Live(s, u);
        var i :| 0 <= i < |s.queue| && s.queue[i].test == u;
        assert m.queue[i].test == u;
        KilledAfter(m.log, r.log, q, u);
      }
    }
  }

  lemma KilledAfter(before: seq<Event>, after: seq<Event>, q: nat, u: nat)
    requires q < |before| && before <= after && Killed(u) in after[|before|..]
    requires forall p | q < p < |after| :: !Asks(after[p])
    ensures KilledSoon(after, q, u)
  {
    var n :| 0 <= n < |after[|before|..]| && after[|before|..][n] == Killed(u);
    assert after[|before| + n] == Killed(u);
  }

  lemma CompleteClears(env: Env, s: State, t: nat)
    requires Good(env, s) && Running(s) && Live(s, t) && JustDone(s.log, t)
    ensures Clears(env, s, Complete(env, s, t))
  {
    var k := FindJob(s.queue, t);
    RemoveGood(env, s, k);
    ResumeClears(env, s, TakeOff(s, k), t, s.queue[k].terminated);
  }

  lemma ResumeClears(env: Env, s: State, m: State, t: nat, terminated: bool)
    requires Good(env, m) && Running(s) && Running(m) && t < |env.tests|
    requires m.log == s.log + [Completed(t, m.iters[t], terminated)]
    ensures Clears(env, s, Resume(env, m, t, terminated))
  {
    var r, e := Resume(env, m, t, terminated), Completed(t, m.iters[t], terminated);
    assert m.log[|m.log| - 1] == e;
    if Final(env, e) {
      HandleDependenciesClears(env, m, t);
      assert r.log[|s.log|] == e;
    } else {
      ResumeQuiet(env, m, t, terminated);
      assert forall q | |s.log| <= q < |r.log| :: q == |s.log| || !r.log[q].Completed?;
      assert r.log[|s.log|] == e;
    }
  }

  /** After a completion only tests are submitted or killed. */
  lemma ResumeQuiet(env: Env, s: State, t: nat, terminated: bool)
    requires InScenario(env, s) && t < |env.tests| && !s.halted
    ensures var r := Resume(env, s, t, terminated);
            s.log <= r.log && forall p | |s.log| <= p < |r.log| :: r.log[p].Submitted? || r.log[p].Killed?
  {
    if env.tests[t].step > 0 {
    } else if !terminated && s.iters[t] + 1 < env.tests[t].iterations {
    } else {
      var m := StartDependents(env, s, StartPostComp, t, 0);
      StartDependentsQueue(env, s, StartPostComp, t, 0);
      if !m.halted {
        KillsEach(env, m, t, 0);
      }
    }
  }

  // ----- What the cluster answered, and why a run stops -----

  /** In a dry run nobody is asked. */
  function Told(env: Env, n: nat): Answer {
    if env.dryRun then Yes else env.answer(n)
  }

  /** The entry says what the cluster had answered just before. */
  predicate AgreesAt(env: Env, log: seq<Event>, p: nat)
    requires p < |log|
  {
    match log[p]
    case Submitted(_, _) => Told(env, p) == Yes
    case Polled(_, up) => Told(env, p) != Raise && up == (Told(env, p) == Yes)
    case Checked(_, done) => Told(env, p) != Raise && done == (Told(env, p) == Yes)
    case Judged(_, ok) => !env.dryRun && Told(env, p) != Raise && ok == (Told(env, p) == Yes)
    case _ => true
  }

  /** A failed job, where failures end the run. */
  predicate Failure(env: Env, e: Event) {
    env.statusCheck && e.Judged? && !e.ok
  }

  function Cancels(queue: seq<LiveJob>): (r: seq<Event>)
    ensures |r| == |queue|
  {
    seq(|queue|, k requires 0 <= k < |queue| => Cancelled(queue[k].test))
  }

  /** A run stops because of a failed job, and then every listed job has been cancelled as the last thing; or
      because an answer was not yes, and it exits when that was a submission that is refused. */
  predicate WhyStopped(env: Env, s: State) {
    && s.halted
    && if s.shuttingDown then !s.exited && Cancels(s.queue) <= s.log[if |s.queue| <= |s.log| then |s.log| - |s.queue| else 0..]
                              && |s.queue| <= |s.log| && exists q :: 0 <= q < |s.log| && Failure(env, s.log[q])
       else Told(env, |s.log|) != Yes && s.exited == (Told(env, |s.log|) == No)
  }

  /** What has happened from `s` to `r` is what the cluster has answered. */
  ghost predicate Heeds(env: Env, s: State, r: State) {
    && s.log <= r.log && (s.halted ==> r == s)
    && (Running(s) ==> Running(r) || WhyStopped(env, r))
    && (forall p | |s.log| <= p < |r.log| :: AgreesAt(env, r.log, p) && (Failure(env, r.log[p]) ==> CutOff(r, p)))
  }

  lemma HeedsBoth(env: Env, s: State, m: State, r: State)
    requires Heeds(env, s, m) && Heeds(env, m, r)
    ensures Heeds(env, s, r)
  {
    forall p | |s.log| <= p < |r.log| ensures AgreesAt(env, r.log, p) && (Failure(env, r.log[p]) ==> CutOff(r, p)) {
      if p < |m.log| {
        assert r.log[p] == m.log[p] && AgreesAt(env, m.log, p);
      }
    }
  }

  lemma NoteHeeds(env: Env, s: State, e: Event)
    requires !s.halted && AgreesAt(env, s.log + [e], |s.log|) && !Failure(env, e)
    ensures Heeds(env, s, Note(s, e)) && (!e.Completed? ==> Clears(env, s, Note(s, e)))
  {
  }

  lemma SubmitHeeds(env: Env, s: State, t: nat)
    requires InScenario(env, s) && t < |env.tests|
    ensures Heeds(env, s, Submit(env, s, t)) && Clears(env, s, Submit(env, s, t))
  {
    assert Told(env, |s.log|) == Ask(env, s);
  }

  lemma {:induction false} StartDependentsHeeds(env: Env, s: State, kind: DepKind, source: nat, i: nat)
    requires InScenario(env, s) && i <= |env.tests|
    ensures Heeds(env, s, StartDependents(env, s, kind, source, i)) && Clears(env, s, StartDependents(env, s, kind, source, i))
    decreases |env.tests| - i
  {
    if i < |env.tests| {
      var m := if !Live(s, i) && DependsOn(env.tests[i], kind, source) then Submit(env, s, i) else s;
      SubmitHeeds(env, s, i);
      StartDependentsHeeds(env, m, kind, source, i + 1);
      if m != s {
        HeedsBoth(env, s, m, StartDependents(env, m, kind, source, i + 1));
        ClearsBoth(env, s, m, StartDependents(env, m, kind, source, i + 1));
      }
    }
  }

  lemma {:induction false} SubmitRootsHeeds(env: Env, s: State, i: nat)
    requires InScenario(env, s) && i <= |env.tests|
    ensures Heeds(env, s, SubmitRoots(env, s, i)) && Clears(env, s, SubmitRoots(env, s, i))
    decreases |env.tests| - i
  {
    if i < |env.tests| {
      var m := if IsRoot(env.tests[i]) then Submit(env, s, i) else s;
      SubmitHeeds(env, s, i);
      SubmitRootsHeeds(env, m, i + 1);
      if m != s {
        HeedsBoth(env, s, m, SubmitRoots(env, m, i + 1));
        ClearsBoth(env, s, m, SubmitRoots(env, m, i + 1));
      }
    }
  }

  lemma {:induction false} KillDependentsHeeds(env: Env, s: State, source: nat, k: nat)
    requires InScenario(env, s) && k <= |s.queue| && !s.halted
    ensures Heeds(env, s, KillDependents(env, s, source, k)) && !KillDependents(env, s, source, k).halted
    decreases |s.queue| - k
  {
    if k < |s.queue| {
      var j := s.queue[k];
      var m := if DependsOn(env.tests[j.test], EndPostComp, source)
               then Note(s, Killed(j.test)).(queue := s.queue[k := j.(terminated := true)]) else s;
      KillDependentsHeeds(env, m, source, k + 1);
      HeedsBoth(env, s, m, KillDependents(env, m, source, k + 1));
    }
  }

  lemma CompleteHeeds(env: Env, s: State, t: nat)
    requires InScenario(env, s) && !s.halted && t < |env.tests| && Live(s, t)
    ensures Heeds(env, s, Complete(env, s, t))
  {
    var k := FindJob(s.queue, t);
    var m := TakeOff(s, k);
    ResumeHeeds(env, m, t, s.queue[k].terminated);
    HeedsBoth(env, s, m, Complete(env, s, t));
  }

  lemma ResumeHeeds(env: Env, s: State, t: nat, terminated: bool)
    requires InScenario(env, s) && t < |env.tests| && !s.halted
    ensures Heeds(env, s, Resume(env, s, t, terminated))
  {
    if env.tests[t].step > 0 {
    } else if !terminated && s.iters[t] + 1 < env.tests[t].iterations {
      SubmitHeeds(env, s.(iters := s.iters[t := s.iters[t] + 1]), t);
    } else {
      var d := StartDependents(env, s, StartPostComp, t, 0);
      StartDependentsHeeds(env, s, StartPostComp, t, 0);
      if !d.halted {
        KillDependentsHeeds(env, d, t, 0);
        HeedsBoth(env, s, d, KillDependents(env, d, t, 0));
      }
    }
  }

  lemma {:induction false} ShutdownCancels(s: State, k: nat)
    requires k <= |s.queue|
    ensures var r := Shutdown(s, k);
            r.log == s.log + Cancels(s.queue)[k..] && r.shuttingDown && r.halted == s.halted && r.exited == s.exited
    decreases |s.queue| - k
  {
    if k < |s.queue| {
      ShutdownCancels(Note(s, Cancelled(s.queue[k].test)), k + 1);
      assert Cancels(s.queue)[k..] == [Cancelled(s.queue[k].test)] + Cancels(s.queue)[k + 1..];
    }
  }

  lemma CompleteAsksNothing(env: Env, s: State, t: nat)
    requires InScenario(env, s) && !s.halted && t < |env.tests| && Live(s, t)
    ensures var r := Complete(env, s, t); s.log <= r.log && forall p | |s.log| <= p < |r.log| :: !Asks(r.log[p]) && !r.log[p].Judged?
  {
    var k := FindJob(s.queue, t);
    ResumeQuiet(env, TakeOff(s, k), t, s.queue[k].terminated);
  }

  /** A failed job: its completion is handled, everything listed is cancelled, and the run is over. */
  lemma FailureStops(env: Env, s: State, c: State, p: nat)
    requires Heeds(env, s, c) && Running(s) && p < |s.log| && Failure(env, s.log[p]) && !c.halted
    requires forall n | p < n < |c.log| :: !Asks(c.log[n])
    ensures var r := Halt(Shutdown(c, 0)); Heeds(env, s, r) && Clears(env, c, r) && CutOff(r, p)
  {
    var r := Halt(Shutdown(c, 0));
    ShutdownCancels(c, 0);
    assert Cancels(c.queue)[0..] == Cancels(c.queue);
    assert r.log[|c.log|..] == Cancels(c.queue);
    assert r.log[p] == s.log[p];
    forall n | |s.log| <= n < |r.log| ensures AgreesAt(env, r.log, n) && !Failure(env, r.log[n]) {
      if n < |c.log| {
        assert AgreesAt(env, c.log, n) && r.log[n] == c.log[n];
        assert !Failure(env, c.log[n]);
      }
    }
  }

  lemma SettleHeeds(env: Env, s: State, t: nat)
    requires Good(env, s) && Running(s) && Live(s, t) && s.log != [] && s.log[|s.log| - 1] == Checked(t, true)
    ensures Heeds(env, s, Settle(env, s, t)) && Clears(env, s, Settle(env, s, t))
  {
    if env.dryRun {
      CompleteHeeds(env, s, t);
      CompleteClears(env, s, t);
    } else if Ask(env, s) != Raise {
      var ok := Ask(env, s) == Yes;
      var j := Note(s, Judged(t, ok));
      NoteGood(env, s, Judged(t, ok));
      Extend(s.log, Judged(t, ok));
      assert j.log[|j.log| - 2] == Checked(t, true);
      assert Live(j, t);
      var c := Complete(env, j, t);
      CompleteHeeds(env, j, t);
      CompleteClears(env, j, t);
      CompleteAsksNothing(env, j, t);
      JudgedHeeds(env, s, t, ok);
    }
  }

  lemma JudgedHeeds(env: Env, s: State, t: nat, ok: bool)
    requires Good(env, s) && Running(s) && !env.dryRun && Live(s, t) && Ask(env, s) != Raise && ok == (Ask(env, s) == Yes)
    requires var j := Note(s, Judged(t, ok)); var c := Complete(env, j, t);
             && Heeds(env, j, c) && Clears(env, j, c)
             && forall p | |j.log| <= p < |c.log| :: !Asks(c.log[p]) && !c.log[p].Judged?
    ensures Heeds(env, s, Settle(env, s, t)) && Clears(env, s, Settle(env, s, t))
  {
    var j := Note(s, Judged(t, ok));
    var c, r, q := Complete(env, j, t), Settle(env, s, t), |s.log|;
    QuietClears(env, s, j);
    ClearsBoth(env, s, j, c);
    assert AgreesAt(env, j.log, q) && c.log[q] == j.log[q] == Judged(t, ok);
    if !ok && env.statusCheck && !c.halted {
      FailureStops(env, j, c, q);
      ClearsBoth(env, s, c, r);
    }
    forall p | |s.log| <= p < |r.log| ensures AgreesAt(env, r.log, p) && (Failure(env, r.log[p]) ==> CutOff(r, p)) {
      assert p == q ==> r.log[p] == j.log[p];
      assert p > q ==> AgreesAt(env, r.log, p);
    }
  }

  // ----- Passes and turns -----

  lemma {:induction false} PollInitHeeds(env: Env, s: State, snapshot: seq<LiveJob>, k: nat)
    requires InScenario(env, s) && k <= |snapshot|
    ensures Heeds(env, s, PollInit(env, s, snapshot, k)) && Clears(env, s, PollInit(env, s, snapshot, k))
    decreases |snapshot| - k
  {
    if k < |snapshot| && !s.halted && Ask(env, s) != Raise {
      var t, up := snapshot[k].test, Ask(env, s) == Yes;
      var n := Note(s, Polled(t, up));
      NoteHeeds(env, s, Polled(t, up));
      StartDependentsHeeds(env, n, StartPostInit, t, 0);
      var m := if up then StartDependents(env, n, StartPostInit, t, 0) else n;
      PollInitHeeds(env, m, snapshot, k + 1);
      var r := PollInit(env, m, snapshot, k + 1);
      HeedsBoth(env, n, m, r);
      ClearsBoth(env, n, m, r);
      HeedsBoth(env, s, n, r);
      ClearsBoth(env, s, n, r);
    }
  }

  lemma CheckOneHeeds(env: Env, s: State, t: nat)
    requires Good(env, s) && Running(s) && Live(s, t) && t < |env.tests|
    ensures var r := CheckOne(env, s, t); Heeds(env, s, r) && Clears(env, s, r) && Good(env, r) && KeepsOthers(s, r, t)
  {
    if Ask(env, s) != Raise {
      var done := Ask(env, s) == Yes;
      var n := Note(s, Checked(t, done));
      NoteGood(env, s, Checked(t, done));
      NoteHeeds(env, s, Checked(t, done));
      Extend(s.log, Checked(t, done));
      assert forall u: nat :: Live(n, u) == Live(s, u);
      if done {
        SettleHeeds(env, n, t);
        SettleGood(env, n, t);
        HeedsBoth(env, s, n, Settle(env, n, t));
        ClearsBoth(env, s, n, Settle(env, n, t));
      }
    }
  }

  lemma MonitorNext(env: Env, s: State, snapshot: seq<LiveJob>, k: nat)
    requires InScenario(env, s) && !s.halted && k < |snapshot| && forall i | 0 <= i < |snapshot| :: snapshot[i].test < |env.tests|
    ensures var m := CheckOne(env, s, snapshot[k].test);
            Monitor(env, s, snapshot, k) == if m.halted then m else Monitor(env, m, snapshot, k + 1)
  {
    var m := CheckOne(env, s, snapshot[k].test);
    assert m.halted ==> Monitor(env, m, snapshot, k + 1) == m;
  }

  lemma {:induction false} MonitorHeeds(env: Env, s: State, snapshot: seq<LiveJob>, k: nat)
    requires Good(env, s) && (Running(s) || s.halted) && k <= |snapshot| && Distinct(snapshot) && AllLive(s, snapshot, k)
    requires forall i | 0 <= i < |snapshot| :: snapshot[i].test < |env.tests|
    ensures Heeds(env, s, Monitor(env, s, snapshot, k)) && Clears(env, s, Monitor(env, s, snapshot, k))
    decreases |snapshot| - k
  {
    if k < |snapshot| && !s.halted {
      var t := snapshot[k].test;
      assert Live(s, t);
      var m := CheckOne(env, s, t);
      CheckOneHeeds(env, s, t);
      MonitorNext(env, s, snapshot, k);
      if !m.halted {
        LaterStayLive(s, m, snapshot, k);
        MonitorHeeds(env, m, snapshot, k + 1);
        HeedsBoth(env, s, m, Monitor(env, m, snapshot, k + 1));
        ClearsBoth(env, s, m, Monitor(env, m, snapshot, k + 1));
      }
    }
  }

  lemma LaterStayLive(s: State, m: State, snapshot: seq<LiveJob>, k: nat)
    requires k < |snapshot| && Distinct(snapshot) && AllLive(s, snapshot, k) && KeepsOthers(s, m, snapshot[k].test)
    ensures AllLive(m, snapshot, k + 1)
  {
    forall i | k + 1 <= i < |snapshot| ensures Live(m, snapshot[i].test) {
      assert Live(s, snapshot[i].test);
    }
  }

  lemma RoundHeeds(env: Env, s: State)
    requires Good(env, s) && Running(s)
    ensures Heeds(env, s, Round(env, s)) && Clears(env, s, Round(env, s))
  {
    forall i | 0 <= i < |s.queue| ensures Live(s, s.queue[i].test) {}
    var m := PollInit(env, s, s.queue, 0);
    PollInitGood(env, s, s.queue, 0);
    PollInitHeeds(env, s, s.queue, 0);
    forall i | 0 <= i < |m.queue| ensures Live(m, m.queue[i].test) {}
    MonitorHeeds(env, m, m.queue, 0);
    HeedsBoth(env, s, m, Round(env, s));
    ClearsBoth(env, s, m, Round(env, s));
  }

  lemma {:induction false} RoundsHeed(env: Env, s: State, rounds: nat)
    requires Good(env, s) && (Running(s) || s.halted)
    ensures Heeds(env, s, Rounds(env, s, rounds)) && Clears(env, s, Rounds(env, s, rounds))
    decreases rounds
  {
    if rounds > 0 && !s.halted && s.queue != [] {
      RoundGood(env, s);
      RoundHeeds(env, s);
      RoundsHeed(env, Round(env, s), rounds - 1);
      HeedsBoth(env, s, Round(env, s), Rounds(env, Round(env, s), rounds - 1));
      ClearsBoth(env, s, Round(env, s), Rounds(env, Round(env, s), rounds - 1));
    }
  }

  lemma RunHeeds(env: Env, rounds: nat)
    ensures Heeds(env, Fresh(env), Run(env, rounds)) && Clears(env, Fresh(env), Run(env, rounds))
  {
    var s := SubmitRoots(env, Fresh(env), 0);
    SubmitRootsGood(env, Fresh(env), 0);
    SubmitRootsHeeds(env, Fresh(env), 0);
    RoundsHeed(env, s, rounds);
    HeedsBoth(env, Fresh(env), s, Run(env, rounds));
    ClearsBoth(env, Fresh(env), s, Run(env, rounds));
  }

  // ----- Whole runs -----

  /** Whatever the cluster answers: when a test has completed for good, every live test that must end with it is
      killed before the cluster is asked anything else, or an exception has ended the run before it could ask. */
  lemma CompletionKills(env: Env, rounds: nat, q: nat, u: nat)
    requires q < |Run(env, rounds).log| && Final(env, Run(env, rounds).log[q])
    requires var log := Run(env, rounds).log;
             u < |env.tests| && DependsOn(env.tests[u], EndPostComp, log[q].test) && LiveIn(log[..q + 1], u)
    ensures KilledSoon(Run(env, rounds).log, q, u) || CutShort(Run(env, rounds), q)
  {
    RunHeeds(env, rounds);
  }

  /** Every log entry says what the cluster had answered. */
  lemma LogAgrees(env: Env, rounds: nat, p: nat)
    requires p < |Run(env, rounds).log|
    ensures AgreesAt(env, Run(env, rounds).log, p)
  {
    RunHeeds(env, rounds);
  }

  /** A run goes on, or it has stopped for one of two reasons. */
  lemma RunStopsOnlyWhen(env: Env, rounds: nat)
    ensures Running(Run(env, rounds)) || WhyStopped(env, Run(env, rounds))
  {
    RunHeeds(env, rounds);
  }

  /** Where statuses are checked, a failed job is the last one that is asked about: either handling its
      completion raised, or every job then listed has been cancelled and the run is over. */
  lemma FailureEndsRun(env: Env, rounds: nat, q: nat)
    requires q < |Run(env, rounds).log| && Failure(env, Run(env, rounds).log[q])
    ensures CutOff(Run(env, rounds), q) && WhyStopped(env, Run(env, rounds))
  {
    RunHeeds(env, rounds);
  }

  // ----- Every turn asks about every job -----

  /** The tests that were polled, and those that were checked, in order. */
  function PolledTests(log: seq<Event>): seq<nat> {
    if log == [] then []
    else
      var e := log[|log| - 1];
      PolledTests(log[..|log| - 1]) + if e.Polled? then [e.test] else []
  }

  function CheckedTests(log: seq<Event>): seq<nat> {
    if log == [] then []
    else
      var e := log[|log| - 1];
      CheckedTests(log[..|log| - 1]) + if e.Checked? then [e.test] else []
  }

  function Tests(queue: seq<LiveJob>): (r: seq<nat>)
    ensures |r| == |queue|
  {
    seq(|queue|, k requires 0 <= k < |queue| => queue[k].test)
  }

  lemma {:induction false} QuietAsks(a: seq<Event>, b: seq<Event>)
    requires a <= b && forall p | |a| <= p < |b| :: !Asks(b[p])
    ensures PolledTests(b) == PolledTests(a) && CheckedTests(b) == CheckedTests(a)
    decreases |b|
  {
    if |a| < |b| {
      QuietAsks(a, b[..|b| - 1]);
    } else {
      assert a == b;
    }
  }

  /** From `s` to `r` these tests have been polled and those checked. */
  predicate Asked(s: State, r: State, polled: seq<nat>, checked: seq<nat>) {
    PolledTests(r.log) == PolledTests(s.log) + polled && CheckedTests(r.log) == CheckedTests(s.log) + checked
  }

  lemma AskedBoth(s: State, m: State, r: State, p: seq<nat>, c: seq<nat>, q: seq<nat>, d: seq<nat>)
    requires Asked(s, m, p, c) && Asked(m, r, q, d)
    ensures Asked(s, r, p + q, c + d)
  {
  }

  lemma TestsFrom(snapshot: seq<LiveJob>, k: nat)
    requires k < |snapshot|
    ensures Tests(snapshot)[k..] == [snapshot[k].test] + Tests(snapshot)[k + 1..]
  {
  }

  lemma PollOneAsks(env: Env, s: State, t: nat, up: bool)
    requires InScenario(env, s)
    ensures var n := Note(s, Polled(t, up));
            Asked(s, if up then StartDependents(env, n, StartPostInit, t, 0) else n, [t], [])
  {
    var n := Note(s, Polled(t, up));
    StartDependentsQueue(env, n, StartPostInit, t, 0);
    Extend(s.log, Polled(t, up));
    QuietAsks(n.log, if up then StartDependents(env, n, StartPostInit, t, 0).log else n.log);
  }

  lemma {:induction false} PollInitAsks(env: Env, s: State, snapshot: seq<LiveJob>, k: nat)
    requires InScenario(env, s) && k <= |snapshot| && !PollInit(env, s, snapshot, k).halted
    ensures Asked(s, PollInit(env, s, snapshot, k), Tests(snapshot)[k..], [])
    decreases |snapshot| - k
  {
    if k < |snapshot| {
      var t, up := snapshot[k].test, Ask(env, s) == Yes;
      var n := Note(s, Polled(t, up));
      var m := if up then StartDependents(env, n, StartPostInit, t, 0) else n;
      PollOneAsks(env, s, t, up);
      PollInitAsks(env, m, snapshot, k + 1);
      AskedBoth(s, m, PollInit(env, m, snapshot, k + 1), [t], [], Tests(snapshot)[k + 1..], []);
      TestsFrom(snapshot, k);
    }
  }

  lemma SettleAsksNothing(env: Env, s: State, t: nat)
    requires InScenario(env, s) && !s.halted && t < |env.tests| && Live(s, t)
    ensures var r := Settle(env, s, t); s.log <= r.log && forall p | |s.log| <= p < |r.log| :: !Asks(r.log[p])
  {
    if env.dryRun {
      CompleteAsksNothing(env, s, t);
    } else if Ask(env, s) != Raise {
      var j := Note(s, Judged(t, Ask(env, s) == Yes));
      assert Live(j, t) == Live(s, t);
      CompleteAsksNothing(env, j, t);
      ShutdownCancels(Complete(env, j, t), 0);
    }
  }

  lemma CheckOneAsks(env: Env, s: State, t: nat)
    requires InScenario(env, s) && !s.halted && Live(s, t) && t < |env.tests| && Ask(env, s) != Raise
    ensures Asked(s, CheckOne(env, s, t), [], [t])
  {
    var done := Ask(env, s) == Yes;
    var n := Note(s, Checked(t, done));
    Extend(s.log, Checked(t, done));
    assert Live(n, t) == Live(s, t);
    if done {
      SettleAsksNothing(env, n, t);
      QuietAsks(n.log, Settle(env, n, t).log);
    }
  }

  lemma {:induction false} MonitorAsks(env: Env, s: State, snapshot: seq<LiveJob>, k: nat)
    requires Good(env, s) && Running(s) && k <= |snapshot| && Distinct(snapshot) && AllLive(s, snapshot, k)
    requires forall i | 0 <= i < |snapshot| :: snapshot[i].test < |env.tests|
    requires !Monitor(env, s, snapshot, k).halted
    ensures Asked(s, Monitor(env, s, snapshot, k), [], Tests(snapshot)[k..])
    decreases |snapshot| - k
  {
    if k < |snapshot| {
      var t := snapshot[k].test;
      assert Live(s, t);
      var m := CheckOne(env, s, t);
      MonitorNext(env, s, snapshot, k);
      CheckOneHeeds(env, s, t);
      CheckOneAsks(env, s, t);
      LaterStayLive(s, m, snapshot, k);
      MonitorAsks(env, m, snapshot, k + 1);
      AskedBoth(s, m, Monitor(env, m, snapshot, k + 1), [], [t], [], Tests(snapshot)[k + 1..]);
      TestsFrom(snapshot, k);
    }
  }

  /** In every turn that nothing stops, each job listed when it begins is polled once, and then each job listed
      after the polls, the new ones at the end, is checked once, in the order of the list. */
  lemma TurnAsksEveryone(env: Env, s: State) returns (queue: seq<LiveJob>)
    requires Good(env, s) && Running(s) && !Round(env, s).halted
    ensures PolledTests(Round(env, s).log) == PolledTests(s.log) + Tests(s.queue)
    ensures s.queue <= queue && CheckedTests(Round(env, s).log) == CheckedTests(s.log) + Tests(queue)
  {
    var m := PollInit(env, s, s.queue, 0);
    queue := m.queue;
    forall i | 0 <= i < |s.queue| ensures Live(s, s.queue[i].test) {}
    PollInitGood(env, s, s.queue, 0);
    PollInitAsks(env, s, s.queue, 0);
    PollInitHeeds(env, s, s.queue, 0);
    forall i | 0 <= i < |m.queue| ensures Live(m, m.queue[i].test) {}
    MonitorAsks(env, m, m.queue, 0);
    AskedBoth(s, m, Round(env, s), Tests(s.queue)[0..], [], [], Tests(queue)[0..]);
    assert Tests(s.queue)[0..] == Tests(s.queue) && Tests(queue)[0..] == Tests(queue);
  }
}
