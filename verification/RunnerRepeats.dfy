/** Scenarios in which no answers of the cluster make a test run an iteration twice: exactly those in which
    no test waits for another one that can be started to be up.  In every other scenario some answers do. */
module RunnerRepeats {
  import opened RunnerModel
  import opened RunnerSafety
  import opened RunnerOnce
  import opened RunnerCoverage
  import opened RunnerTurns

  // ----- A cluster that answers as a log says it did -----

  /** The scenario with nobody to ask. */
  function Guide(tests: seq<Test>): Env {
    Env(tests, true, false, (n: nat) => Yes, (n: nat) => 0)
  }

  /** What the cluster must have answered before `e`. */
  function Reply(e: Event): Answer {
    match e
    case Polled(_, false) => No
    case Checked(_, false) => No
    case _ => Yes
  }

  ghost predicate Obeys(env: Env, g: Env, log: seq<Event>) {
    && g == Guide(g.tests) && env == g.(dryRun := false, answer := env.answer)
    && forall n | 0 <= n < |log| :: env.answer(n) == Reply(log[n])
  }

  lemma ObeysPrefix(env: Env, g: Env, p: seq<Event>, q: seq<Event>)
    requires p <= q && Obeys(env, g, q)
    ensures Obeys(env, g, p)
  {
  }

  lemma SubmitObeys(env: Env, g: Env, s: State, t: nat)
    requires InScenario(g, s) && !s.halted && t < |g.tests| && Obeys(env, g, Submit(g, s, t).log)
    ensures Submit(env, s, t) == Submit(g, s, t)
  {
    assert Submit(g, s, t).log[|s.log|] == Submitted(t, s.iters[t]);
  }

  /** In the guided run nothing raises and the log grows. */
  predicate GoesOn(s: State, r: State) {
    s.log <= r.log && (!s.halted ==> !r.halted)
  }

  lemma {:induction false} StartDependentsGoesOn(g: Env, s: State, kind: DepKind, a: nat, i: nat)
    requires g.dryRun && InScenario(g, s) && i <= |g.tests|
    ensures GoesOn(s, StartDependents(g, s, kind, a, i))
    decreases |g.tests| - i
  {
    if i < |g.tests| {
      var s' := if !Live(s, i) && DependsOn(g.tests[i], kind, a) then Submit(g, s, i) else s;
      StartDependentsGoesOn(g, s', kind, a, i + 1);
    }
  }

  lemma {:induction false} StartDependentsObeys(env: Env, g: Env, s: State, kind: DepKind, a: nat, i: nat)
    requires InScenario(g, s) && !s.halted && i <= |g.tests| && Obeys(env, g, StartDependents(g, s, kind, a, i).log)
    ensures StartDependents(env, s, kind, a, i) == StartDependents(g, s, kind, a, i)
    decreases |g.tests| - i
  {
    if i < |g.tests| {
      var s' := if !Live(s, i) && DependsOn(g.tests[i], kind, a) then Submit(g, s, i) else s;
      StartDependentsGoesOn(g, s', kind, a, i + 1);
      ObeysPrefix(env, g, s'.log, StartDependents(g, s', kind, a, i + 1).log);
      if s' != s {
        SubmitObeys(env, g, s, i);
      }
      StartDependentsObeys(env, g, s', kind, a, i + 1);
    }
  }

  lemma {:induction false} KillDependentsObeys(env: Env, g: Env, s: State, a: nat, k: nat)
    requires env.tests == g.tests && InScenario(g, s) && k <= |s.queue|
    ensures KillDependents(env, s, a, k) == KillDependents(g, s, a, k) && GoesOn(s, KillDependents(g, s, a, k))
    decreases |s.queue| - k
  {
    if k < |s.queue| {
      var j := s.queue[k];
      var s' := if DependsOn(g.tests[j.test], EndPostComp, a)
                then Note(s, Killed(j.test)).(queue := s.queue[k := j.(terminated := true)]) else s;
      KillDependentsObeys(env, g, s', a, k + 1);
    }
  }

  lemma {:induction false} SubmitRootsGoesOn(g: Env, s: State, i: nat)
    requires g.dryRun && InScenario(g, s) && i <= |g.tests|
    ensures GoesOn(s, SubmitRoots(g, s, i))
    decreases |g.tests| - i
  {
    if i < |g.tests| {
      SubmitRootsGoesOn(g, if IsRoot(g.tests[i]) then Submit(g, s, i) else s, i + 1);
    }
  }

  lemma {:induction false} SubmitRootsObeys(env: Env, g: Env, s: State, i: nat)
    requires InScenario(g, s) && !s.halted && i <= |g.tests| && Obeys(env, g, SubmitRoots(g, s, i).log)
    ensures SubmitRoots(env, s, i) == SubmitRoots(g, s, i)
    decreases |g.tests| - i
  {
    if i < |g.tests| {
      var s' := if IsRoot(g.tests[i]) then Submit(g, s, i) else s;
      SubmitRootsGoesOn(g, s', i + 1);
      ObeysPrefix(env, g, s'.log, SubmitRoots(g, s', i + 1).log);
      if IsRoot(g.tests[i]) {
        SubmitObeys(env, g, s, i);
      }
      SubmitRootsObeys(env, g, s', i + 1);
    }
  }

  lemma CompleteGoesOn(g: Env, s: State, t: nat)
    requires g.dryRun && InScenario(g, s) && !s.halted && t < |g.tests| && Live(s, t)
    ensures GoesOn(s, Complete(g, s, t))
  {
    var s' := TakeOff(s, FindJob(s.queue, t));
    StartDependentsGoesOn(g, s', StartPostComp, t, 0);
    KillDependentsObeys(g, g, StartDependents(g, s', StartPostComp, t, 0), t, 0);
  }

  lemma CompleteObeys(env: Env, g: Env, s: State, t: nat)
    requires InScenario(g, s) && !s.halted && t < |g.tests| && Live(s, t) && Obeys(env, g, Complete(g, s, t).log)
    ensures Complete(env, s, t) == Complete(g, s, t)
  {
    var k := FindJob(s.queue, t);
    var s' := TakeOff(s, k);
    if g.tests[t].step > 0 {
    } else if !s.queue[k].terminated && s.iters[t] + 1 < g.tests[t].iterations {
      SubmitObeys(env, g, s'.(iters := s.iters[t := s.iters[t] + 1]), t);
    } else {
      var m := StartDependents(g, s', StartPostComp, t, 0);
      StartDependentsGoesOn(g, s', StartPostComp, t, 0);
      KillDependentsObeys(env, g, m, t, 0);
      ObeysPrefix(env, g, m.log, KillDependents(g, m, t, 0).log);
      StartDependentsObeys(env, g, s', StartPostComp, t, 0);
    }
  }

  // ----- Turns in which one test is up, and turns in which one test completes -----

  /** The polling pass when only `a` is reported up. */
  function PollOnly(g: Env, s: State, snapshot: seq<LiveJob>, k: nat, a: nat): (r: State)
    requires InScenario(g, s) && k <= |snapshot|
    ensures InScenario(g, r)
    decreases |snapshot| - k
  {
    if k == |snapshot| then s
    else
      var t := snapshot[k].test;
      var s' := Note(s, Polled(t, t == a));
      PollOnly(g, if t == a then StartDependents(g, s', StartPostInit, t, 0) else s', snapshot, k + 1, a)
  }

  /** The monitoring pass when only `c` is reported completed. */
  function CheckOnly(g: Env, s: State, snapshot: seq<LiveJob>, k: nat, c: nat): (r: State)
    requires InScenario(g, s) && k <= |snapshot| && forall i | 0 <= i < |snapshot| :: snapshot[i].test < |g.tests|
    ensures InScenario(g, r)
    decreases |snapshot| - k
  {
    if k == |snapshot| then s
    else
      var t := snapshot[k].test;
      var s' := Note(s, Checked(t, t == c));
      CheckOnly(g, if t == c then Complete(g, Note(s', Judged(t, true)), t) else s', snapshot, k + 1, c)
  }

  lemma {:induction false} PollOnlyGoesOn(g: Env, s: State, snapshot: seq<LiveJob>, k: nat, a: nat)
    requires g.dryRun && InScenario(g, s) && k <= |snapshot|
    ensures GoesOn(s, PollOnly(g, s, snapshot, k, a))
    decreases |snapshot| - k
  {
    if k < |snapshot| {
      var t := snapshot[k].test;
      var s' := Note(s, Polled(t, t == a));
      StartDependentsGoesOn(g, s', StartPostInit, t, 0);
      PollOnlyGoesOn(g, if t == a then StartDependents(g, s', StartPostInit, t, 0) else s', snapshot, k + 1, a);
    }
  }

  lemma {:induction false} PollOnlyObeys(env: Env, g: Env, s: State, snapshot: seq<LiveJob>, k: nat, a: nat)
    requires InScenario(g, s) && !s.halted && k <= |snapshot| && Obeys(env, g, PollOnly(g, s, snapshot, k, a).log)
    ensures PollInit(env, s, snapshot, k) == PollOnly(g, s, snapshot, k, a)
    decreases |snapshot| - k
  {
    if k < |snapshot| {
      var t := snapshot[k].test;
      var s' := Note(s, Polled(t, t == a));
      var m := if t == a then StartDependents(g, s', StartPostInit, t, 0) else s';
      StartDependentsGoesOn(g, s', StartPostInit, t, 0);
      PollOnlyGoesOn(g, m, snapshot, k + 1, a);
      ObeysPrefix(env, g, m.log, PollOnly(g, s, snapshot, k, a).log);
      assert m.log[|s.log|] == s'.log[|s.log|] == Polled(t, t == a);
      if t == a {
        StartDependentsObeys(env, g, s', StartPostInit, t, 0);
      }
      PollOnlyObeys(env, g, m, snapshot, k + 1, a);
    }
  }

  /** `c`, if it is still to be checked, is on the list. */
  predicate Checkable(g: Env, s: State, snapshot: seq<LiveJob>, k: nat, c: nat) {
    && InScenario(g, s) && k <= |snapshot| && Distinct(snapshot)
    && (forall i | 0 <= i < |snapshot| :: snapshot[i].test < |g.tests|)
    && (Listed(snapshot, k, c) ==> Live(s, c))
  }

  /** One turn of the pass. */
  function CheckNext(g: Env, s: State, snapshot: seq<LiveJob>, k: nat, c: nat): (r: State)
    requires InScenario(g, s) && k < |snapshot| && snapshot[k].test < |g.tests|
    ensures InScenario(g, r)
  {
    var t := snapshot[k].test;
    var s' := Note(s, Checked(t, t == c));
    if t == c then Complete(g, Note(s', Judged(t, true)), t) else s'
  }

  lemma CheckNextGoesOn(g: Env, s: State, snapshot: seq<LiveJob>, k: nat, c: nat)
    requires g.dryRun && Checkable(g, s, snapshot, k, c) && k < |snapshot| && !s.halted
    ensures var t := snapshot[k].test; var s' := Note(s, Checked(t, t == c)); var r := CheckNext(g, s, snapshot, k, c);
            GoesOn(s', r) && (t == c ==> GoesOn(Note(s', Judged(t, true)), r)) && Checkable(g, r, snapshot, k + 1, c)
  {
    var t := snapshot[k].test;
    ListedNext(snapshot, k, c);
    if t == c {
      var s'' := Note(Note(s, Checked(t, true)), Judged(t, true));
      assert Live(s'', t) == Live(s, t);
      CompleteGoesOn(g, s'', t);
    } else {
      assert Live(Note(s, Checked(t, false)), c) == Live(s, c);
    }
  }

  lemma {:induction false} CheckOnlyGoesOn(g: Env, s: State, snapshot: seq<LiveJob>, k: nat, c: nat)
    requires g.dryRun && Checkable(g, s, snapshot, k, c) && !s.halted
    ensures GoesOn(s, CheckOnly(g, s, snapshot, k, c))
    decreases |snapshot| - k
  {
    if k < |snapshot| {
      CheckNextGoesOn(g, s, snapshot, k, c);
      CheckOnlyGoesOn(g, CheckNext(g, s, snapshot, k, c), snapshot, k + 1, c);
    }
  }

  lemma SettleObeys(env: Env, g: Env, s: State, t: nat)
    requires InScenario(g, s) && !s.halted && t < |g.tests| && Live(s, t)
    requires Obeys(env, g, Complete(g, Note(s, Judged(t, true)), t).log)
    ensures Settle(env, s, t) == Complete(g, Note(s, Judged(t, true)), t)
  {
    var s' := Note(s, Judged(t, true));
    assert Live(s', t) == Live(s, t);
    CompleteGoesOn(g, s', t);
    assert Complete(g, s', t).log[|s.log|] == s'.log[|s.log|] == Judged(t, true);
    CompleteObeys(env, g, s', t);
  }

  lemma {:induction false} CheckOnlyObeys(env: Env, g: Env, s: State, snapshot: seq<LiveJob>, k: nat, c: nat)
    requires Checkable(g, s, snapshot, k, c) && !s.halted && Obeys(env, g, CheckOnly(g, s, snapshot, k, c).log)
    ensures Monitor(env, s, snapshot, k) == CheckOnly(g, s, snapshot, k, c)
    decreases |snapshot| - k
  {
    if k < |snapshot| {
      var t := snapshot[k].test;
      var s', m := Note(s, Checked(t, t == c)), CheckNext(g, s, snapshot, k, c);
      CheckNextGoesOn(g, s, snapshot, k, c);
      CheckOnlyGoesOn(g, m, snapshot, k + 1, c);
      ObeysPrefix(env, g, m.log, CheckOnly(g, s, snapshot, k, c).log);
      assert m.log[|s.log|] == s'.log[|s.log|] == Checked(t, t == c);
      if t == c {
        ListedNext(snapshot, k, c);
        assert Live(s', t) == Live(s, t);
        SettleObeys(env, g, s', t);
      }
      CheckOnlyObeys(env, g, m, snapshot, k + 1, c);
    }
  }

  // ----- What such turns do -----

  lemma {:induction false} PollOnlyStarts(g: Env, s: State, snapshot: seq<LiveJob>, k: nat, a: nat)
    requires g.dryRun && Clean(g, s) && k <= |snapshot| && Distinct(snapshot)
    ensures Starts(g, s, PollOnly(g, s, snapshot, k, a), if Listed(snapshot, k, a) then Waiting(g, s, StartPostInit, a, 0) else {})
    decreases |snapshot| - k
  {
    if k < |snapshot| {
      var t := snapshot[k].test;
      var n := Note(s, Polled(t, t == a));
      NoteStarts(g, s, Polled(t, t == a));
      ListedNext(snapshot, k, a);
      if t == a {
        var m := StartDependents(g, n, StartPostInit, t, 0);
        StartDependentsStarts(g, n, StartPostInit, t, 0);
        StartsBoth(g, s, n, m, {}, Waiting(g, n, StartPostInit, t, 0));
        PollOnlyStarts(g, m, snapshot, k + 1, a);
        StartsBoth(g, s, m, PollOnly(g, m, snapshot, k + 1, a), {} + Waiting(g, n, StartPostInit, t, 0), {});
        assert forall u: nat :: Live(n, u) <==> Live(s, u) || u in {};
        assert {} + Waiting(g, n, StartPostInit, t, 0) + {} == Waiting(g, s, StartPostInit, a, 0);
      } else {
        PollOnlyStarts(g, n, snapshot, k + 1, a);
        var w := if Listed(snapshot, k + 1, a) then Waiting(g, n, StartPostInit, a, 0) else {};
        StartsBoth(g, s, n, PollOnly(g, n, snapshot, k + 1, a), {}, w);
        assert forall u: nat :: Live(n, u) <==> Live(s, u) || u in {};
        assert Waiting(g, n, StartPostInit, a, 0) == Waiting(g, s, StartPostInit, a, 0);
        assert {} + w == w;
      }
    } else {
      StartsNone(g, s);
    }
  }

  /** `c` is repeated or hands over. */
  ghost predicate Completes(g: Env, s: State, r: State, c: nat)
    requires InScenario(g, s) && c < |g.tests|
  {
    (More(g, s, c) && Repeats(g, s, r, c)) || Hands(g, s, r, c, Released(g, s, c))
  }

  lemma {:induction false} CheckNoneStarts(g: Env, s: State, snapshot: seq<LiveJob>, k: nat, c: nat)
    requires g.dryRun && Clean(g, s) && Checkable(g, s, snapshot, k, c) && !Listed(snapshot, k, c)
    ensures Starts(g, s, CheckOnly(g, s, snapshot, k, c), {})
    decreases |snapshot| - k
  {
    if k < |snapshot| {
      var t := snapshot[k].test;
      var n := Note(s, Checked(t, false));
      NoteStarts(g, s, Checked(t, false));
      ListedNext(snapshot, k, c);
      CheckNoneStarts(g, n, snapshot, k + 1, c);
      StartsBoth(g, s, n, CheckOnly(g, n, snapshot, k + 1, c), {}, {});
    } else {
      StartsNone(g, s);
    }
  }

  lemma CompletesBetween(g: Env, s: State, m: State, n: State, r: State, c: nat)
    requires c < |g.tests| && Starts(g, s, m, {}) && Completes(g, m, n, c) && Starts(g, n, r, {})
    ensures Completes(g, s, r, c)
  {
    assert forall u: nat :: Live(m, u) == Live(s, u);
    assert forall u: nat | u < |g.tests| :: Times(m, u) == Times(s, u);
    assert forall u: nat :: Live(n, u) == Live(r, u);
    assert forall u: nat | u < |g.tests| :: Times(n, u) == Times(r, u);
    assert Released(g, m, c) == Released(g, s, c);
  }

  lemma {:induction false} CheckOnlyCompletes(g: Env, s: State, snapshot: seq<LiveJob>, k: nat, c: nat)
    requires Dry(g) && Clean(g, s) && Checkable(g, s, snapshot, k, c) && Listed(snapshot, k, c) && c < |g.tests|
    ensures Completes(g, s, CheckOnly(g, s, snapshot, k, c), c)
    decreases |snapshot| - k
  {
    var t := snapshot[k].test;
    var n := Note(s, Checked(t, t == c));
    NoteStarts(g, s, Checked(t, t == c));
    ListedNext(snapshot, k, c);
    CheckNextGoesOn(g, s, snapshot, k, c);
    if t == c {
      var j := Note(n, Judged(t, true));
      NoteStarts(g, n, Judged(t, true));
      StartsBoth(g, s, n, j, {}, {});
      assert Live(j, t) <==> Live(s, t) || t in {};
      CompleteEither(g, j, t);
      var m := Complete(g, j, t);
      assert !Listed(snapshot, k + 1, c);
      CheckNoneStarts(g, m, snapshot, k + 1, c);
      CompletesBetween(g, s, j, m, CheckOnly(g, m, snapshot, k + 1, c), c);
    } else {
      CheckOnlyCompletes(g, n, snapshot, k + 1, c);
      var r := CheckOnly(g, n, snapshot, k + 1, c);
      StartsNone(g, r);
      CompletesBetween(g, s, n, r, r, c);
    }
  }

  // ----- States that some answers lead to -----

  function GuidedRound(g: Env, s: State, a: nat, c: nat): (r: State)
    requires InScenario(g, s)
    ensures InScenario(g, r)
  {
    var p := PollOnly(g, s, s.queue, 0, a);
    CheckOnly(g, p, p.queue, 0, c)
  }

  /** Whoever answers as the log says is in this state after `n` turns. */
  ghost predicate Attained(g: Env, s: State, n: nat) {
    && g == Guide(g.tests) && Dry(g) && Clean(g, s)
    && forall env | Obeys(env, g, s.log) :: Run(env, n) == s
  }

  function Answers(g: Env, log: seq<Event>): Env {
    g.(dryRun := false, answer := (n: nat) => if n < |log| then Reply(log[n]) else Yes)
  }

  lemma IterationIsLast(log: seq<Event>, t: nat, first: nat)
    ensures var times := Iterations(log, t); times != [] ==> times[|times| - 1] == IterationIn(log, t, first)
  {
  }

  lemma AttainedFacts(g: Env, s: State, n: nat, t: nat)
    requires Attained(g, s, n) && t < |g.tests|
    ensures Live(s, t) ==> Begun(s, t)
    ensures Begun(s, t) ==> Times(s, t)[|Times(s, t)| - 1] == s.iters[t]
  {
    var env := Answers(g, s.log);
    assert Obeys(env, g, s.log);
    RunIsLegal(env, n);
    IterationIsLast(s.log, t, g.tests[t].first);
    if Live(s, t) {
      LiveWasStarted(s.log, t);
      IterationsOfStarted(s.log, t);
    }
  }

  lemma GuidedRoundObeys(env: Env, g: Env, s: State, a: nat, c: nat)
    requires g == Guide(g.tests) && Clean(g, s) && (Live(s, c) || c == |g.tests|)
    ensures s.log <= GuidedRound(g, s, a, c).log
    ensures Obeys(env, g, GuidedRound(g, s, a, c).log) ==> Round(env, s) == GuidedRound(g, s, a, c)
  {
    var p := PollOnly(g, s, s.queue, 0, a);
    PollOnlyStarts(g, s, s.queue, 0, a);
    PollOnlyGoesOn(g, s, s.queue, 0, a);
    assert Live(s, c) ==> Live(p, c);
    CheckOnlyGoesOn(g, p, p.queue, 0, c);
    if Obeys(env, g, GuidedRound(g, s, a, c).log) {
      ObeysPrefix(env, g, p.log, GuidedRound(g, s, a, c).log);
      PollOnlyObeys(env, g, s, s.queue, 0, a);
      CheckOnlyObeys(env, g, p, p.queue, 0, c);
    }
  }

  lemma TurnAttained(g: Env, s: State, n: nat, a: nat, c: nat)
    requires Attained(g, s, n) && s.queue != [] && (Live(s, c) || c == |g.tests|) && Clean(g, GuidedRound(g, s, a, c))
    ensures Attained(g, GuidedRound(g, s, a, c), n + 1)
  {
    var r := GuidedRound(g, s, a, c);
    forall env | Obeys(env, g, r.log) ensures Run(env, n + 1) == r {
      GuidedRoundObeys(env, g, s, a, c);
      ObeysPrefix(env, g, s.log, r.log);
      OneMoreRound(env, SubmitRoots(env, Fresh(env), 0), n);
    }
  }

  /** `a` is up, and nothing completes. */
  lemma PollTurn(g: Env, s: State, n: nat, a: nat) returns (r: State)
    requires Attained(g, s, n) && a < |g.tests| && Live(s, a)
    ensures Attained(g, r, n + 1) && Starts(g, s, r, Waiting(g, s, StartPostInit, a, 0))
  {
    var none, p := |g.tests|, PollOnly(g, s, s.queue, 0, a);
    r := GuidedRound(g, s, a, none);
    PollOnlyStarts(g, s, s.queue, 0, a);
    assert Listed(s.queue, 0, a);
    CheckNoneStarts(g, p, p.queue, 0, none);
    var w := Waiting(g, s, StartPostInit, a, 0);
    StartsBoth(g, s, p, r, w, {});
    assert w + {} == w;
    TurnAttained(g, s, n, a, none);
  }

  /** Nothing is up, and `c` completes. */
  lemma CheckTurn(g: Env, s: State, n: nat, c: nat) returns (r: State)
    requires Attained(g, s, n) && c < |g.tests| && Live(s, c)
    ensures Attained(g, r, n + 1) && Completes(g, s, r, c)
  {
    var none, p := |g.tests|, PollOnly(g, s, s.queue, 0, |g.tests|);
    r := GuidedRound(g, s, none, c);
    PollOnlyStarts(g, s, s.queue, 0, none);
    assert !Listed(s.queue, 0, none);
    assert Live(p, c) <==> Live(s, c) || c in {};
    assert Listed(p.queue, 0, c);
    CheckOnlyCompletes(g, p, p.queue, 0, c);
    StartsNone(g, r);
    CompletesBetween(g, s, p, r, r, c);
    TurnAttained(g, s, n, none, c);
  }

  /** What is left of `s` when `c` has completed all its iterations. */
  ghost predicate Through(g: Env, s: State, r: State, c: nat) {
    && (forall u: nat | u != c && Live(s, u) :: Live(r, u))
    && (forall u: nat | u < |g.tests| && DependsOn(g.tests[u], StartPostComp, c) :: Live(r, u))
    && (forall u: nat | u < |g.tests| :: Times(s, u) <= Times(r, u))
    && (!Live(r, c) || !SubmitsOnce(g, r.log))
  }

  lemma {:induction false} CompleteAll(g: Env, s: State, n: nat, c: nat) returns (r: State, m: nat)
    requires Attained(g, s, n) && c < |g.tests| && Live(s, c)
    ensures Attained(g, r, m) && Through(g, s, r, c)
    decreases g.tests[c].iterations - s.iters[c]
  {
    var q := CheckTurn(g, s, n, c);
    assert forall u: nat | u < |g.tests| :: Times(s, u) <= Times(q, u);
    if More(g, s, c) && Repeats(g, s, q, c) {
      assert Live(q, c);
      r, m := CompleteAll(g, q, n + 1, c);
    } else {
      r, m := q, n + 1;
      if Live(r, c) {
        AttainedFacts(g, s, n, c);
        SameTwice(Times(s, c), Times(r, c), s.iters[c]);
        assert !RepeatFree(Iterations(r.log, c));
      }
    }
  }

  lemma BeginAttained(g: Env)
    requires g == Guide(g.tests) && Dry(g)
    ensures Attained(g, SubmitRoots(g, Fresh(g), 0), 0)
  {
    var s := SubmitRoots(g, Fresh(g), 0);
    SubmitRootsStarts(g, Fresh(g), 0);
    forall env | Obeys(env, g, s.log) ensures Run(env, 0) == s {
      assert Fresh(env).iters == Fresh(g).iters;
      SubmitRootsObeys(env, g, Fresh(g), 0);
    }
  }

  /** Every test to which start edges lead can be brought onto the list. */
  lemma {:induction false} BringUp(g: Env, a: nat, depth: nat) returns (s: State, n: nat)
    requires g == Guide(g.tests) && Dry(g) && StartableBy(g, a, depth)
    ensures Attained(g, s, n) && Live(s, a)
    decreases depth
  {
    var deps := g.tests[a].deps;
    if IsRoot(g.tests[a]) {
      BeginAttained(g);
      RootsBegin(g, a);
      s, n := SubmitRoots(g, Fresh(g), 0), 0;
    } else if StartPostComp in deps && StartableBy(g, deps[StartPostComp], depth - 1) {
      var x := deps[StartPostComp];
      var s', n' := BringUp(g, x, depth - 1);
      s, n := CompleteAll(g, s', n', x);
      assert DependsOn(g.tests[a], StartPostComp, x);
    } else {
      var x := deps[StartPostInit];
      var s', n' := BringUp(g, x, depth - 1);
      s := PollTurn(g, s', n', x);
      n := n' + 1;
      assert Live(s, a) <==> Live(s', a) || a in Waiting(g, s', StartPostInit, x, 0);
    }
  }

  lemma BothUp(g: Env, a: nat, t: nat) returns (s: State, n: nat)
    requires g == Guide(g.tests) && Dry(g) && Startable(g, a) && t < |g.tests| && DependsOn(g.tests[t], StartPostInit, a)
    ensures Attained(g, s, n) && Live(s, a) && Live(s, t)
  {
    var depth: nat :| StartableBy(g, a, depth);
    var s', n' := BringUp(g, a, depth);
    s := PollTurn(g, s', n', a);
    n := n' + 1;
    assert Live(s, a) && (Live(s, t) <==> Live(s', t) || t in Waiting(g, s', StartPostInit, a, 0));
  }

  lemma GoneAfter(g: Env, s: State, n: nat, r: State, t: nat)
    requires Attained(g, s, n) && t < |g.tests| && Live(s, t) && Through(g, s, r, t) && SubmitsOnce(g, r.log)
    ensures Gone(r, t)
  {
    AttainedFacts(g, s, n, t);
    assert Times(s, t) <= Times(r, t);
  }

  /** Bring `a` up, start `t`, let it complete while `a` goes on, and report `a` up once more. */
  lemma StartAgain(g: Env, a: nat, t: nat) returns (r: State, m: nat)
    requires g == Guide(g.tests) && Dry(g) && Startable(g, a) && t < |g.tests| && a != t
    requires DependsOn(g.tests[t], StartPostInit, a)
    ensures Attained(g, r, m) && !SubmitsOnce(g, r.log)
  {
    var s, n := BothUp(g, a, t);
    r, m := CompleteAll(g, s, n, t);
    if SubmitsOnce(g, r.log) {
      GoneAfter(g, s, n, r, t);
      assert Live(r, a);
      r := PollAgain(g, r, m, a, t);
      m := m + 1;
    }
  }

  /** `t` is gone when `a` is polled. */
  lemma PollAgain(g: Env, s: State, n: nat, a: nat, t: nat) returns (r: State)
    requires Attained(g, s, n) && a < |g.tests| && Live(s, a) && t < |g.tests| && Gone(s, t)
    requires DependsOn(g.tests[t], StartPostInit, a)
    ensures Attained(g, r, n + 1) && !SubmitsOnce(g, r.log)
  {
    r := PollTurn(g, s, n, a);
    AttainedFacts(g, s, n, t);
    SameTwice(Times(s, t), Times(r, t), s.iters[t]);
    assert !RepeatFree(Iterations(r.log, t));
  }

  lemma SameTwice(before: seq<nat>, after: seq<nat>, i: nat)
    requires before != [] && before[|before| - 1] == i && after == before + [i]
    ensures !RepeatFree(after)
  {
    assert after[|before| - 1] == after[|before|];
  }

  // ----- The characterization -----

  /** Whatever the cluster answers, and however long the run is watched. */
  ghost predicate NeverRepeats(tests: seq<Test>) {
    forall env: Env, rounds: nat | env.tests == tests :: SubmitsOnce(env, Run(env, rounds).log)
  }

  lemma {:induction false} StartableSame(env: Env, g: Env, t: nat, n: nat)
    requires env.tests == g.tests
    ensures StartableBy(env, t, n) == StartableBy(g, t, n)
    decreases n
  {
    if n > 0 && t < |g.tests| {
      var deps := g.tests[t].deps;
      if StartPostComp in deps { StartableSame(env, g, deps[StartPostComp], n - 1); }
      if StartPostInit in deps { StartableSame(env, g, deps[StartPostInit], n - 1); }
    }
  }

  lemma NoneAwaitedSame(env: Env, g: Env)
    requires env.tests == g.tests && NoneAwaited(g)
    ensures NoneAwaited(env)
  {
    forall t | 0 <= t < |env.tests| && StartPostInit in env.tests[t].deps && Startable(env, env.tests[t].deps[StartPostInit])
      ensures env.tests[t].deps[StartPostInit] == t
    {
      var n: nat :| StartableBy(env, env.tests[t].deps[StartPostInit], n);
      StartableSame(env, g, env.tests[t].deps[StartPostInit], n);
    }
  }

  lemma OnceIsRepeatFree(env: Env, rounds: nat)
    requires WellFormed(env) && NoneAwaited(env)
    ensures SubmitsOnce(env, Run(env, rounds).log)
  {
    forall t: nat | t < |env.tests| ensures RepeatFree(Iterations(Run(env, rounds).log, t)) {
      SubmittedAtMostOnceInOrder(env, rounds, t);
    }
  }

  /** No answers of the cluster make a run submit a test twice with one iteration if and only if no test
      waits for another one that can be started to be up. */
  lemma NeverRepeatsIff(tests: seq<Test>)
    requires Dry(Guide(tests))
    ensures NeverRepeats(tests) <==> NoneAwaited(Guide(tests))
  {
    var g := Guide(tests);
    if NoneAwaited(g) {
      forall env: Env, rounds: nat | env.tests == tests ensures SubmitsOnce(env, Run(env, rounds).log) {
        NoneAwaitedSame(env, g);
        OnceIsRepeatFree(env, rounds);
      }
    } else {
      var t :| 0 <= t < |tests| && StartPostInit in tests[t].deps && tests[t].deps[StartPostInit] != t
               && Startable(g, tests[t].deps[StartPostInit]);
      var r, m := StartAgain(g, tests[t].deps[StartPostInit], t);
      var env := Answers(g, r.log);
      assert Obeys(env, g, r.log) && Run(env, m) == r;
      assert !SubmitsOnce(env, Run(env, m).log);
    }
  }
}
