/** What must follow a log entry, the kills aside: the starts that a poll or a completion causes, the next
    iteration, and the completion of whatever the cluster calls done. */
module RunnerStarts {
  import opened RunnerModel
  import opened RunnerSafety
  import opened RunnerOnce
  import opened RunnerDuties

  /** `u` is submitted after position `q`, before anything else is asked. */
  predicate StartedSoon(log: seq<Event>, q: nat, u: nat) {
    exists r :: q < r < |log| && log[r].Submitted? && log[r].test == u && forall p | q < p < r :: !Asks(log[p])
  }

  /** Every dependent that is not live at `q` is submitted. */
  ghost predicate AllStarted(env: Env, log: seq<Event>, q: nat, kind: DepKind, source: nat)
    requires q < |log|
  {
    forall u: nat | u < |env.tests| && DependsOn(env.tests[u], kind, source) && !LiveIn(log[..q + 1], u) :: StartedSoon(log, q, u)
  }

  predicate NextEnds(env: Env, log: seq<Event>, q: nat, t: nat) {
    q + 1 < |log| && log[q + 1].test == t && log[q + 1].Completed?
  }

  /** What a log entry calls for has come after it. */
  ghost predicate Followed(env: Env, log: seq<Event>, q: nat)
    requires q < |log|
  {
    match log[q]
    case Polled(t, up) => up ==> AllStarted(env, log, q, StartPostInit, t)
    case Checked(t, done) =>
      done ==> if env.dryRun then NextEnds(env, log, q, t) else q + 1 < |log| && log[q + 1].Judged? && log[q + 1].test == t
    case Judged(t, _) => NextEnds(env, log, q, t)
    case Completed(t, i, _) =>
      t < |env.tests| && env.tests[t].step <= 0 ==>
        if Final(env, log[q]) then AllStarted(env, log, q, StartPostComp, t) else q + 1 < |log| && log[q + 1] == Submitted(t, i + 1)
    case _ => true
  }

  /** Everything that has been appended to the log of `s` is followed by what it calls for. */
  ghost predicate Does(env: Env, s: State, r: State) {
    && s.log <= r.log && (s.halted ==> r == s)
    && forall q | |s.log| <= q < |r.log| :: Followed(env, r.log, q) || CutShort(r, q)
  }

  lemma StartedGrows(env: Env, a: seq<Event>, b: seq<Event>, q: nat, kind: DepKind, source: nat)
    requires q < |a| && a <= b && AllStarted(env, a, q, kind, source)
    ensures AllStarted(env, b, q, kind, source)
  {
    assert b[..q + 1] == a[..q + 1];
    forall u: nat | u < |env.tests| && DependsOn(env.tests[u], kind, source) && !LiveIn(b[..q + 1], u) ensures StartedSoon(b, q, u) {
      assert StartedSoon(a, q, u);
      var r :| q < r < |a| && a[r].Submitted? && a[r].test == u && forall p | q < p < r :: !Asks(a[p]);
      assert b[r] == a[r];
    }
  }

  lemma FollowedGrows(env: Env, a: seq<Event>, b: seq<Event>, q: nat)
    requires q < |a| && a <= b && Followed(env, a, q)
    ensures Followed(env, b, q)
  {
    assert b[q] == a[q];
    assert q + 1 < |a| ==> b[q + 1] == a[q + 1];
    match a[q]
    case Polled(t, up) => if up { StartedGrows(env, a, b, q, StartPostInit, t); }
    case Completed(t, i, _) =>
      if t < |env.tests| && env.tests[t].step <= 0 && Final(env, a[q]) { StartedGrows(env, a, b, q, StartPostComp, t); }
    case _ =>
  }

  lemma DoesBoth(env: Env, s: State, m: State, r: State)
    requires Does(env, s, m) && Does(env, m, r)
    ensures Does(env, s, r)
  {
    forall q | |s.log| <= q < |r.log| ensures Followed(env, r.log, q) || CutShort(r, q) {
      if q < |m.log| && Followed(env, m.log, q) {
        FollowedGrows(env, m.log, r.log, q);
      }
    }
  }

  /** An entry and what comes of it. */
  lemma DoesAfter(env: Env, s: State, n: State, r: State, e: Event)
    requires !s.halted && n.log == s.log + [e] && Does(env, n, r)
    requires Followed(env, r.log, |s.log|) || CutShort(r, |s.log|)
    ensures Does(env, s, r)
  {
  }

  /** These entries call for nothing. */
  predicate CallsForNothing(e: Event) {
    e.Submitted? || e.Killed? || e.Cancelled?
  }

  lemma QuietDoes(env: Env, s: State, r: State)
    requires s.log <= r.log && (s.halted ==> r == s) && forall p | |s.log| <= p < |r.log| :: CallsForNothing(r.log[p])
    ensures Does(env, s, r)
  {
  }

  // ----- Starts -----

  predicate SubmittedSince(s: State, r: State, e: Event) {
    exists n :: |s.log| <= n < |r.log| && r.log[n] == e
  }

  function StartOne(env: Env, s: State, kind: DepKind, source: nat, i: nat): (m: State)
    requires InScenario(env, s) && i < |env.tests|
    ensures InScenario(env, m)
  {
    if !Live(s, i) && DependsOn(env.tests[i], kind, source) then Submit(env, s, i) else s
  }

  lemma StartOneOnly(env: Env, s: State, kind: DepKind, source: nat, i: nat, u: nat)
    requires InScenario(env, s) && i < |env.tests| && u != i
    ensures var m := StartOne(env, s, kind, source, i); Live(m, u) == Live(s, u) && m.iters == s.iters && s.log <= m.log
  {
    var m := StartOne(env, s, kind, source, i);
    if Live(s, u) {
      var k :| 0 <= k < |s.queue| && s.queue[k].test == u;
      assert m.queue[k].test == u;
    }
  }

  lemma StartNext(env: Env, s: State, kind: DepKind, source: nat, i: nat)
    requires InScenario(env, s) && i < |env.tests|
    ensures StartDependents(env, s, kind, source, i) == StartDependents(env, StartOne(env, s, kind, source, i), kind, source, i + 1)
  {
  }

  lemma {:induction false} DependentsStart(env: Env, s: State, kind: DepKind, source: nat, i: nat, u: nat, r: State)
    requires InScenario(env, s) && i <= u < |env.tests| && !Live(s, u) && DependsOn(env.tests[u], kind, source)
    requires r == StartDependents(env, s, kind, source, i) && !r.halted
    ensures SubmittedSince(s, r, Submitted(u, s.iters[u]))
    decreases |env.tests| - i
  {
    var m := StartOne(env, s, kind, source, i);
    StartNext(env, s, kind, source, i);
    if i == u {
      StartDependentsQueue(env, m, kind, source, i + 1);
      assert r.log[|s.log|] == m.log[|s.log|] == Submitted(u, s.iters[u]);
    } else {
      StartOneOnly(env, s, kind, source, i, u);
      DependentsStart(env, m, kind, source, i + 1, u, r);
      var n :| |m.log| <= n < |r.log| && r.log[n] == Submitted(u, s.iters[u]);
    }
  }

  lemma StartsAreMade(env: Env, s: State, kind: DepKind, source: nat, r: State)
    requires Good(env, s) && Running(s) && s.log != [] && r == StartDependents(env, s, kind, source, 0)
    ensures s.log <= r.log && r.shuttingDown == s.shuttingDown && forall p | |s.log| <= p < |r.log| :: r.log[p].Submitted?
    ensures !r.halted ==> AllStarted(env, r.log, |s.log| - 1, kind, source)
  {
    StartDependentsQueue(env, s, kind, source, 0);
    StartsShutNothing(env, s, kind, source, 0);
    if !r.halted {
      var q := |s.log| - 1;
      assert r.log[..q + 1] == s.log;
      forall u: nat | u < |env.tests| && DependsOn(env.tests[u], kind, source) && !LiveIn(s.log, u) ensures StartedSoon(r.log, q, u) {
        assert !Live(s, u);
        DependentsStart(env, s, kind, source, 0, u, r);
        var n :| |s.log| <= n < |r.log| && r.log[n] == Submitted(u, s.iters[u]);
        assert forall p | q < p < n :: !Asks(r.log[p]);
      }
    }
  }

  // ----- Completions -----

  lemma ResumeDoes(env: Env, s: State, m: State, t: nat, i: nat, terminated: bool)
    requires Running(s) && Good(env, m) && Running(m) && t < |env.tests| && i == m.iters[t]
    requires m.log == s.log + [Completed(t, i, terminated)]
    ensures var r := Resume(env, m, t, terminated);
            Does(env, s, r) && m.log <= r.log && !r.shuttingDown
  {
    var r := Resume(env, m, t, terminated);
    var e := Completed(t, i, terminated);
    assert m.log[|s.log|] == e;
    ResumeQuiet(env, m, t, terminated);
    QuietDoes(env, m, r);
    assert r.log[|s.log|] == e;
    if env.tests[t].step <= 0 && Final(env, e) {
      var d := StartDependents(env, m, StartPostComp, t, 0);
      StartsAreMade(env, m, StartPostComp, t, d);
      if !d.halted {
        KillsShutNothing(env, d, t, 0);
        KillsEach(env, d, t, 0);
        StartedGrows(env, d.log, r.log, |s.log|, StartPostComp, t);
      }
    }
    DoesAfter(env, s, m, r, e);
  }

  lemma CompleteDoes(env: Env, s: State, t: nat)
    requires Good(env, s) && Running(s) && Live(s, t) && t < |env.tests| && JustDone(s.log, t)
    ensures var r := Complete(env, s, t);
            Does(env, s, r) && !r.shuttingDown && |s.log| < |r.log| && r.log[|s.log|].Completed? && r.log[|s.log|].test == t
  {
    var k := FindJob(s.queue, t);
    var m := TakeOff(s, k);
    RemoveGood(env, s, k);
    ResumeDoes(env, s, m, t, s.iters[t], s.queue[k].terminated);
    assert m.log[|s.log|] == Completed(t, s.iters[t], s.queue[k].terminated);
  }

  lemma ShutdownDoes(env: Env, c: State)
    requires !c.halted
    ensures Does(env, c, Halt(Shutdown(c, 0)))
  {
    ShutdownCancels(c, 0);
    var r := Halt(Shutdown(c, 0));
    assert Cancels(c.queue)[0..] == Cancels(c.queue);
    assert r.log[|c.log|..] == Cancels(c.queue);
    forall p | |c.log| <= p < |r.log| ensures CallsForNothing(r.log[p]) {
      assert r.log[p] == Cancels(c.queue)[p - |c.log|];
    }
    QuietDoes(env, c, r);
  }

  lemma JudgedDoes(env: Env, s: State, t: nat, ok: bool)
    requires Good(env, s) && Running(s) && Live(s, t) && t < |env.tests| && s.log != [] && s.log[|s.log| - 1] == Checked(t, true)
    ensures var j := Note(s, Judged(t, ok)); var c := Complete(env, j, t);
            Does(env, s, c) && !c.shuttingDown && |s.log| < |c.log| && c.log[|s.log|] == Judged(t, ok)
  {
    var j := Note(s, Judged(t, ok));
    NoteGood(env, s, Judged(t, ok));
    Extend(s.log, Judged(t, ok));
    assert j.log[|j.log| - 2] == Checked(t, true);
    assert Live(j, t);
    CompleteDoes(env, j, t);
    var c := Complete(env, j, t);
    assert c.log[|s.log|] == j.log[|s.log|];
    DoesAfter(env, s, j, c, Judged(t, ok));
  }

  /** What a check that says completed leads to. */
  lemma SettleDoes(env: Env, s: State, t: nat)
    requires Good(env, s) && Running(s) && Live(s, t) && t < |env.tests| && s.log != [] && s.log[|s.log| - 1] == Checked(t, true)
    ensures var r := Settle(env, s, t);
            && Does(env, s, r)
            && (if env.dryRun then NextEnds(env, r.log, |s.log| - 1, t)
                else (r == Halt(s) || (|s.log| < |r.log| && r.log[|s.log|].Judged? && r.log[|s.log|].test == t)))
  {
    if env.dryRun {
      CompleteDoes(env, s, t);
    } else if Ask(env, s) != Raise {
      var ok := Ask(env, s) == Yes;
      var c := Complete(env, Note(s, Judged(t, ok)), t);
      JudgedDoes(env, s, t, ok);
      if !ok && env.statusCheck && !c.halted {
        ShutdownDoes(env, c);
        DoesBoth(env, s, c, Settle(env, s, t));
      }
    }
  }

  // ----- Passes and turns -----

  lemma CheckOneDoes(env: Env, s: State, t: nat)
    requires Good(env, s) && Running(s) && Live(s, t) && t < |env.tests|
    ensures Does(env, s, CheckOne(env, s, t))
  {
    if Ask(env, s) != Raise {
      var done := Ask(env, s) == Yes;
      var n, r := Note(s, Checked(t, done)), CheckOne(env, s, t);
      NoteGood(env, s, Checked(t, done));
      Extend(s.log, Checked(t, done));
      assert Live(n, t) == Live(s, t);
      if done {
        SettleDoes(env, n, t);
      }
      assert r.log[|s.log|] == n.log[|s.log|] == Checked(t, done);
      DoesAfter(env, s, n, r, Checked(t, done));
    }
  }

  lemma {:induction false} MonitorDoes(env: Env, s: State, snapshot: seq<LiveJob>, k: nat)
    requires Good(env, s) && (Running(s) || s.halted) && k <= |snapshot| && Distinct(snapshot) && AllLive(s, snapshot, k)
    requires forall i | 0 <= i < |snapshot| :: snapshot[i].test < |env.tests|
    ensures Does(env, s, Monitor(env, s, snapshot, k))
    decreases |snapshot| - k
  {
    if k < |snapshot| && !s.halted {
      var t := snapshot[k].test;
      assert Live(s, t);
      var m := CheckOne(env, s, t);
      CheckOneHeeds(env, s, t);
      CheckOneDoes(env, s, t);
      MonitorNext(env, s, snapshot, k);
      if !m.halted {
        LaterStayLive(s, m, snapshot, k);
        MonitorDoes(env, m, snapshot, k + 1);
        DoesBoth(env, s, m, Monitor(env, m, snapshot, k + 1));
      }
    }
  }

  lemma PollOneDoes(env: Env, s: State, t: nat, up: bool)
    requires Good(env, s) && Running(s) && Live(s, t) && t < |env.tests|
    ensures var n := Note(s, Polled(t, up));
            var m := if up then StartDependents(env, n, StartPostInit, t, 0) else n;
            Does(env, s, m) && !m.shuttingDown && Good(env, m) && Grown(s, m)
  {
    var e := Polled(t, up);
    var n := Note(s, e);
    NoteGood(env, s, e);
    Extend(s.log, e);
    var m := if up then StartDependents(env, n, StartPostInit, t, 0) else n;
    if up {
      assert LiveIn(n.log, t) && JustUp(n.log, t);
      StartDependentsGood(env, n, StartPostInit, t, 0);
      StartsAreMade(env, n, StartPostInit, t, m);
    }
    QuietDoes(env, n, m);
    assert m.log[|s.log|] == n.log[|s.log|] == e;
    DoesAfter(env, s, n, m, e);
  }

  function PollOne(env: Env, s: State, t: nat): (m: State)
    requires InScenario(env, s)
    ensures InScenario(env, m)
  {
    var n := Note(s, Polled(t, Ask(env, s) == Yes));
    if Ask(env, s) == Yes then StartDependents(env, n, StartPostInit, t, 0) else n
  }

  lemma PollNext(env: Env, s: State, snapshot: seq<LiveJob>, k: nat)
    requires InScenario(env, s) && k < |snapshot| && !s.halted && Ask(env, s) != Raise
    ensures PollInit(env, s, snapshot, k) == PollInit(env, PollOne(env, s, snapshot[k].test), snapshot, k + 1)
  {
  }

  lemma {:induction false} PollInitDoes(env: Env, s: State, snapshot: seq<LiveJob>, k: nat)
    requires Good(env, s) && (Running(s) || s.halted) && k <= |snapshot| && AllLive(s, snapshot, k)
    requires forall i | 0 <= i < |snapshot| :: snapshot[i].test < |env.tests|
    ensures Does(env, s, PollInit(env, s, snapshot, k))
    decreases |snapshot| - k
  {
    if k == |snapshot| || s.halted || Ask(env, s) == Raise {
      assert PollInit(env, s, snapshot, k).log == s.log;
    } else {
      var t := snapshot[k].test;
      assert Live(s, t);
      var m := PollOne(env, s, t);
      PollNext(env, s, snapshot, k);
      PollOneDoes(env, s, t, Ask(env, s) == Yes);
      PollOneRuns(env, s, t, Ask(env, s) == Yes);
      forall i | k + 1 <= i < |snapshot| ensures Live(m, snapshot[i].test) {
        GrownKeepsLive(s, m, snapshot[i].test);
      }
      PollInitDoes(env, m, snapshot, k + 1);
      DoesBoth(env, s, m, PollInit(env, m, snapshot, k + 1));
    }
  }

  lemma PollOneRuns(env: Env, s: State, t: nat, up: bool)
    requires InScenario(env, s) && Running(s) && t < |env.tests| && Ask(env, s) != Raise && up == (Ask(env, s) == Yes)
    ensures var n := Note(s, Polled(t, up));
            var m := if up then StartDependents(env, n, StartPostInit, t, 0) else n;
            Running(m) || m.halted
  {
    StartDependentsHeeds(env, Note(s, Polled(t, up)), StartPostInit, t, 0);
  }

  lemma RoundDoes(env: Env, s: State)
    requires Good(env, s) && Running(s)
    ensures Does(env, s, Round(env, s))
  {
    forall i | 0 <= i < |s.queue| ensures Live(s, s.queue[i].test) {}
    var m := PollInit(env, s, s.queue, 0);
    PollInitGood(env, s, s.queue, 0);
    PollInitHeeds(env, s, s.queue, 0);
    PollInitDoes(env, s, s.queue, 0);
    forall i | 0 <= i < |m.queue| ensures Live(m, m.queue[i].test) {}
    MonitorDoes(env, m, m.queue, 0);
    DoesBoth(env, s, m, Round(env, s));
  }

  lemma {:induction false} RoundsDo(env: Env, s: State, rounds: nat)
    requires Good(env, s) && (Running(s) || s.halted)
    ensures Does(env, s, Rounds(env, s, rounds))
    decreases rounds
  {
    if rounds > 0 && !s.halted && s.queue != [] {
      RoundGood(env, s);
      RoundHeeds(env, s);
      RoundDoes(env, s);
      RoundsDo(env, Round(env, s), rounds - 1);
      DoesBoth(env, s, Round(env, s), Rounds(env, Round(env, s), rounds - 1));
    }
  }

  // ----- The roots -----

  lemma {:induction false} RootsAreSubmitted(env: Env, s: State, i: nat)
    requires InScenario(env, s) && i <= |env.tests|
    ensures var r := SubmitRoots(env, s, i);
            && s.log <= r.log && r.iters == s.iters && r.shuttingDown == s.shuttingDown
            && (forall p | |s.log| <= p < |r.log| :: r.log[p].Submitted?)
            && (!r.halted ==> forall u | i <= u < |env.tests| && IsRoot(env.tests[u]) :: Submitted(u, s.iters[u]) in r.log)
    decreases |env.tests| - i
  {
    if i < |env.tests| {
      var m := if IsRoot(env.tests[i]) then Submit(env, s, i) else s;
      RootsAreSubmitted(env, m, i + 1);
      var r := SubmitRoots(env, m, i + 1);
      if IsRoot(env.tests[i]) && !m.halted {
        assert r.log[|s.log|] == m.log[|s.log|] == Submitted(i, s.iters[i]);
      }
      if m.halted {
        HaltedSubmitsNothing(env, m, i + 1);
      }
    }
  }

  lemma {:induction false} HaltedSubmitsNothing(env: Env, s: State, i: nat)
    requires InScenario(env, s) && i <= |env.tests| && s.halted
    ensures SubmitRoots(env, s, i) == s
    decreases |env.tests| - i
  {
    if i < |env.tests| {
      HaltedSubmitsNothing(env, s, i + 1);
    }
  }

  /** The root has been submitted with its first iteration before anything was asked. */
  predicate RootStarted(env: Env, log: seq<Event>, u: nat)
    requires u < |env.tests|
  {
    exists r :: 0 <= r < |log| && log[r] == Submitted(u, env.tests[u].first) && forall p | 0 <= p < r :: !Asks(log[p])
  }

  // ----- Whole runs -----

  /** Whatever the cluster answers: a poll that says up and a last completion are followed, before anything else
      is asked, by the start of each dependent that is not live; any other completion of an unstepped test
      immediately by its next iteration; a job that is called done, once judged, immediately by its completion; or
      an exception has ended the run before it could ask anything more. */
  lemma DutiesAreDone(env: Env, rounds: nat, q: nat)
    requires q < |Run(env, rounds).log|
    ensures Followed(env, Run(env, rounds).log, q) || CutShort(Run(env, rounds), q)
  {
    var f := Fresh(env);
    var s := SubmitRoots(env, f, 0);
    SubmitRootsGood(env, f, 0);
    SubmitRootsHeeds(env, f, 0);
    RootsAreSubmitted(env, f, 0);
    QuietDoes(env, f, s);
    RoundsDo(env, s, rounds);
    DoesBoth(env, f, s, Run(env, rounds));
  }

  /** Every run begins with the roots, unless an exception ends it before it asks anything. */
  lemma RootsStart(env: Env, rounds: nat, u: nat)
    requires u < |env.tests| && IsRoot(env.tests[u])
    ensures var r := Run(env, rounds);
            RootStarted(env, r.log, u) || (r.halted && !r.shuttingDown && OnlySubmissions(r.log))
  {
    var f, r := Fresh(env), Run(env, rounds);
    var s := SubmitRoots(env, f, 0);
    RootsAreSubmitted(env, f, 0);
    SubmitRootsGood(env, f, 0);
    SubmitRootsHeeds(env, f, 0);
    RoundsHeed(env, s, rounds);
    if !s.halted {
      var n :| 0 <= n < |s.log| && s.log[n] == Submitted(u, f.iters[u]);
      assert r.log[n] == s.log[n];
      assert forall p | 0 <= p < n :: r.log[p] == s.log[p];
    }
  }
}
