/** One turn of a dry run, exactly: although jobs are polled and completed one after the other while both
    lists change, a turn acts on all listed tests at once. */
module RunnerTurns {
  import opened RunnerModel
  import opened RunnerSafety
  import opened RunnerOnce
  import opened RunnerCoverage

  /** A dry run without design-space steps. */
  ghost predicate Dry(env: Env) {
    env.dryRun && WellFormed(env) && StepFree(env)
  }

  /** Nothing ends the test before its last iteration. */
  predicate Steady(env: Env, t: nat)
    requires t < |env.tests|
  {
    EndPostComp !in env.tests[t].deps
  }

  /** Nothing has raised, no test is listed twice, and only tests that may be killed are marked. */
  predicate Clean(env: Env, s: State) {
    && InScenario(env, s) && !s.halted && Distinct(s.queue)
    && forall k | 0 <= k < |s.queue| :: s.queue[k].terminated ==> !Steady(env, s.queue[k].test)
  }

  /** The iterations `t` has been submitted with. */
  function Times(s: State, t: nat): seq<nat> {
    Iterations(s.log, t)
  }

  predicate Begun(s: State, t: nat) {
    Times(s, t) != []
  }

  predicate Gone(s: State, t: nat) {
    Begun(s, t) && !Live(s, t)
  }

  lemma BegunIsStarted(s: State, t: nat)
    ensures Begun(s, t) <==> Started(s.log, t)
  {
    IterationsOfStarted(s.log, t);
  }

  lemma {:induction false} IterationsOfStarted(log: seq<Event>, t: nat)
    ensures Iterations(log, t) != [] <==> Started(log, t)
    decreases |log|
  {
    if log != [] {
      var front := log[..|log| - 1];
      IterationsOfStarted(front, t);
      if Started(front, t) {
        StartedPrefix(log, |log| - 1, t);
      }
      if p :| 0 <= p < |log| && log[p].Submitted? && log[p].test == t {
        assert p < |front| ==> front[p] == log[p];
      }
    }
  }

  function OneIf(b: bool, i: nat): seq<nat> {
    if b then [i] else []
  }

  lemma TimesExtend(log: seq<Event>, e: Event, t: nat)
    ensures Iterations(log + [e], t) == Iterations(log, t) + if e.Submitted? && e.test == t then [e.iteration] else []
  {
    Extend(log, e);
  }

  /** Exactly the tests in `added` have been started, each at its current iteration. */
  ghost predicate Starts(env: Env, s: State, r: State, added: set<nat>) {
    && Clean(env, s) && Clean(env, r) && r.iters == s.iters
    && (forall u: nat {:trigger Live(r, u)} :: Live(r, u) <==> Live(s, u) || u in added)
    && (forall u: nat | u in added :: !Live(s, u) && u < |env.tests|)
    && (forall u: nat {:trigger Times(r, u)} | u < |env.tests| :: Times(r, u) == Times(s, u) + OneIf(u in added, s.iters[u]))
  }

  lemma StartsNone(env: Env, s: State)
    requires Clean(env, s)
    ensures Starts(env, s, s, {})
  {
  }

  lemma StartsBoth(env: Env, s: State, m: State, r: State, a: set<nat>, b: set<nat>)
    requires Starts(env, s, m, a) && Starts(env, m, r, b)
    ensures Starts(env, s, r, a + b)
  {
    forall u: nat | u < |env.tests| ensures Times(r, u) == Times(s, u) + OneIf(u in a + b, s.iters[u]) {
      assert Live(m, u) <==> Live(s, u) || u in a;
      assert Times(m, u) == Times(s, u) + OneIf(u in a, s.iters[u]);
    }
    forall u: nat ensures Live(r, u) <==> Live(s, u) || u in a + b {
      assert Live(m, u) <==> Live(s, u) || u in a;
    }
    forall u: nat | u in a + b ensures !Live(s, u) && u < |env.tests| {
      assert Live(m, u) <==> Live(s, u) || u in a;
    }
  }

  lemma LiveAppend(s: State, r: State, j: LiveJob, u: nat)
    requires r.queue == s.queue + [j]
    ensures Live(r, u) <==> Live(s, u) || u == j.test
  {
    if Live(s, u) {
      var k :| 0 <= k < |s.queue| && s.queue[k].test == u;
      assert r.queue[k].test == u;
    }
    assert r.queue[|s.queue|] == j;
  }

  lemma SubmitStarts(env: Env, s: State, t: nat)
    requires env.dryRun && Clean(env, s) && t < |env.tests| && !Live(s, t)
    ensures Starts(env, s, Submit(env, s, t), {t})
  {
    var r := Submit(env, s, t);
    forall u: nat
      ensures Live(r, u) <==> Live(s, u) || u in {t}
      ensures Times(r, u) == Times(s, u) + if u == t then [s.iters[t]] else []
    {
      LiveAppend(s, r, LiveJob(t, 0, false), u);
      TimesExtend(s.log, Submitted(t, s.iters[t]), u);
    }
  }

  ghost function Waiting(env: Env, s: State, kind: DepKind, a: nat, i: nat): set<nat> {
    set t | i <= t < |env.tests| && !Live(s, t) && DependsOn(env.tests[t], kind, a)
  }

  lemma {:induction false} StartDependentsStarts(env: Env, s: State, kind: DepKind, a: nat, i: nat)
    requires env.dryRun && Clean(env, s) && i <= |env.tests|
    ensures Starts(env, s, StartDependents(env, s, kind, a, i), Waiting(env, s, kind, a, i))
    decreases |env.tests| - i
  {
    if i < |env.tests| {
      var one: set<nat> := if !Live(s, i) && DependsOn(env.tests[i], kind, a) then {i} else {};
      var m := if !Live(s, i) && DependsOn(env.tests[i], kind, a) then Submit(env, s, i) else s;
      if one == {} { StartsNone(env, s); } else { SubmitStarts(env, s, i); }
      StartDependentsStarts(env, m, kind, a, i + 1);
      StartsBoth(env, s, m, StartDependents(env, m, kind, a, i + 1), one, Waiting(env, m, kind, a, i + 1));
      assert one + Waiting(env, m, kind, a, i + 1) == Waiting(env, s, kind, a, i);
    } else {
      StartsNone(env, s);
    }
  }

  // ----- The polling pass -----

  predicate Listed(snapshot: seq<LiveJob>, k: nat, t: nat) {
    exists i | k <= i < |snapshot| :: snapshot[i].test == t
  }

  ghost function Polls(env: Env, s: State, snapshot: seq<LiveJob>, k: nat): set<nat> {
    set t | 0 <= t < |env.tests| && !Live(s, t) && StartPostInit in env.tests[t].deps
            && Listed(snapshot, k, env.tests[t].deps[StartPostInit])
  }

  lemma NoteStarts(env: Env, s: State, e: Event)
    requires Clean(env, s) && !e.Submitted?
    ensures Starts(env, s, Note(s, e), {})
  {
    forall u: nat ensures Times(Note(s, e), u) == Times(s, u) && Live(Note(s, e), u) == Live(s, u) {
      TimesExtend(s.log, e, u);
    }
  }

  lemma {:induction false} PollInitStarts(env: Env, s: State, snapshot: seq<LiveJob>, k: nat)
    requires env.dryRun && Clean(env, s) && k <= |snapshot|
    ensures Starts(env, s, PollInit(env, s, snapshot, k), Polls(env, s, snapshot, k))
    decreases |snapshot| - k
  {
    if k < |snapshot| {
      var t := snapshot[k].test;
      var n := Note(s, Polled(t, true));
      NoteStarts(env, s, Polled(t, true));
      StartDependentsStarts(env, n, StartPostInit, t, 0);
      var m := StartDependents(env, n, StartPostInit, t, 0);
      var w := Waiting(env, n, StartPostInit, t, 0);
      StartsBoth(env, s, n, m, {}, w);
      PollInitStarts(env, m, snapshot, k + 1);
      StartsBoth(env, s, m, PollInit(env, m, snapshot, k + 1), {} + w, Polls(env, m, snapshot, k + 1));
      forall u: nat | u < |env.tests|
        ensures u in {} + w + Polls(env, m, snapshot, k + 1) <==> u in Polls(env, s, snapshot, k)
      {
        ListedNext(snapshot, k, if StartPostInit in env.tests[u].deps then env.tests[u].deps[StartPostInit] else 0);
        assert Live(m, u) <==> Live(s, u) || u in w;
      }
      assert {} + w + Polls(env, m, snapshot, k + 1) == Polls(env, s, snapshot, k);
    } else {
      StartsNone(env, s);
      assert Polls(env, s, snapshot, k) == {};
    }
  }

  lemma ListedNext(snapshot: seq<LiveJob>, k: nat, t: nat)
    requires k < |snapshot|
    ensures Listed(snapshot, k, t) <==> snapshot[k].test == t || Listed(snapshot, k + 1, t)
  {
  }

  // ----- One completion -----

  predicate More(env: Env, s: State, t: nat)
    requires InScenario(env, s) && t < |env.tests|
  {
    s.iters[t] + 1 < env.tests[t].iterations
  }

  /** `t` left the list and came back for its next iteration. */
  ghost predicate Repeats(env: Env, s: State, r: State, t: nat)
    requires InScenario(env, s) && t < |env.tests|
  {
    && Clean(env, r) && r.iters == s.iters[t := s.iters[t] + 1]
    && (forall u: nat {:trigger Live(r, u)} :: Live(r, u) <==> Live(s, u))
    && (forall u: nat {:trigger Times(r, u)} | u < |env.tests| :: Times(r, u) == Times(s, u) + OneIf(u == t, s.iters[u] + 1))
  }

  /** `t` left the list and its dependents came. */
  ghost predicate Hands(env: Env, s: State, r: State, t: nat, added: set<nat>)
    requires InScenario(env, s)
  {
    && Clean(env, r) && r.iters == s.iters
    && (forall u: nat {:trigger Live(r, u)} :: Live(r, u) <==> (u != t && Live(s, u)) || u in added)
    && (forall u: nat {:trigger Times(r, u)} | u < |env.tests| :: Times(r, u) == Times(s, u) + OneIf(u in added, s.iters[u]))
  }

  /** The dependents that are not listed once `t` is gone. */
  ghost function Released(env: Env, s: State, t: nat): set<nat> {
    set u | 0 <= u < |env.tests| && DependsOn(env.tests[u], StartPostComp, t) && (u == t || !Live(s, u))
  }

  lemma TakeOffHands(env: Env, s: State, k: nat)
    requires Clean(env, s) && k < |s.queue|
    ensures Hands(env, s, TakeOff(s, k), s.queue[k].test, {})
  {
    var t, r := s.queue[k].test, TakeOff(s, k);
    forall u: nat
      ensures Live(r, u) <==> u != t && Live(s, u)
      ensures Times(r, u) == Times(s, u)
    {
      TimesExtend(s.log, Completed(t, s.iters[t], s.queue[k].terminated), u);
      LiveTakeOff(env, s, k, u);
    }
  }

  lemma LiveTakeOff(env: Env, s: State, k: nat, u: nat)
    requires InScenario(env, s) && Distinct(s.queue) && k < |s.queue|
    ensures Live(TakeOff(s, k), u) <==> u != s.queue[k].test && Live(s, u)
  {
    var r := TakeOff(s, k);
    if u != s.queue[k].test && Live(s, u) {
      var i :| 0 <= i < |s.queue| && s.queue[i].test == u;
      assert r.queue[if i < k then i else i - 1].test == u;
    }
  }

  lemma {:induction false} KillsStartNothing(env: Env, s: State, a: nat, k: nat)
    requires Clean(env, s) && k <= |s.queue|
    ensures Starts(env, s, KillDependents(env, s, a, k), {})
    decreases |s.queue| - k
  {
    if k < |s.queue| {
      var j := s.queue[k];
      var m := if DependsOn(env.tests[j.test], EndPostComp, a)
               then Note(s, Killed(j.test)).(queue := s.queue[k := j.(terminated := true)]) else s;
      forall u: nat ensures Live(m, u) == Live(s, u) && Times(m, u) == Times(s, u) {
        TimesExtend(s.log, Killed(j.test), u);
        SameTestsSameLive(s, m, u);
      }
      KillsStartNothing(env, m, a, k + 1);
      StartsBoth(env, s, m, KillDependents(env, m, a, k + 1), {}, {});
    } else {
      StartsNone(env, s);
    }
  }

  lemma RerunRepeats(env: Env, s: State, k: nat)
    requires Dry(env) && Clean(env, s) && k < |s.queue|
    ensures var t := s.queue[k].test;
            Repeats(env, s, Submit(env, TakeOff(s, k).(iters := s.iters[t := s.iters[t] + 1]), t), t)
  {
    var t, s' := s.queue[k].test, TakeOff(s, k);
    TakeOffHands(env, s, k);
    var n := s'.(iters := s.iters[t := s.iters[t] + 1]);
    assert !Live(s', t);
    forall u: nat ensures Live(n, u) == Live(s', u) && Times(n, u) == Times(s', u) {}
    SubmitStarts(env, n, t);
    forall u: nat ensures Live(Submit(env, n, t), u) <==> Live(s, u) {
      assert Live(s', u) <==> u != t && Live(s, u);
      assert Live(s, t);
    }
  }

  lemma ReleaseHands(env: Env, s: State, k: nat)
    requires Dry(env) && Clean(env, s) && k < |s.queue|
    ensures var t := s.queue[k].test; Hands(env, s, HandleDependencies(env, TakeOff(s, k), t), t, Released(env, s, t))
  {
    var t, s' := s.queue[k].test, TakeOff(s, k);
    TakeOffHands(env, s, k);
    var m := StartDependents(env, s', StartPostComp, t, 0);
    var w := Waiting(env, s', StartPostComp, t, 0);
    StartDependentsStarts(env, s', StartPostComp, t, 0);
    KillsStartNothing(env, m, t, 0);
    StartsBoth(env, s', m, KillDependents(env, m, t, 0), w, {});
    forall u: nat ensures u in w + {} <==> u in Released(env, s, t) {
      assert Live(s', u) <==> u != t && Live(s, u);
    }
    assert w + {} == Released(env, s, t);
    assert forall u: nat :: Live(s', u) <==> u != t && Live(s, u);
    assert forall u: nat | u < |env.tests| :: Times(s', u) == Times(s, u);
  }

  /** A completion repeats the test or hands over; a test that may be killed can hand over early. */
  lemma CompleteEither(env: Env, s: State, t: nat)
    requires Dry(env) && Clean(env, s) && t < |env.tests| && Live(s, t)
    ensures var r := Complete(env, s, t);
            || (More(env, s, t) && Repeats(env, s, r, t))
            || ((!More(env, s, t) || !Steady(env, t)) && Hands(env, s, r, t, Released(env, s, t)))
  {
    var k := FindJob(s.queue, t);
    if !s.queue[k].terminated && More(env, s, t) { RerunRepeats(env, s, k); } else { ReleaseHands(env, s, k); }
  }

  // ----- The monitoring pass -----

  /** `u` was listed when the pass began and its turn has come. */
  predicate Passed(env: Env, s: State, k: nat, u: nat) {
    Live(s, u) && !Listed(s.queue, k, u)
  }

  /** What `u` waits for has completed its last iteration in this pass; or it may have been killed. */
  predicate Caused(env: Env, s: State, k: nat, u: nat, surely: bool)
    requires WellFormed(env) && InScenario(env, s) && u < |env.tests|
  {
    StartPostComp in env.tests[u].deps &&
    var x := env.tests[u].deps[StartPostComp];
    Passed(env, s, k, x) && (!More(env, s, x) || (!surely && !Steady(env, x)))
  }

  /** What has become of `u` since the pass began in state `s`. */
  ghost predicate Became(env: Env, s: State, r: State, k: nat, u: nat)
    requires WellFormed(env) && InScenario(env, s) && InScenario(env, r) && u < |env.tests|
  {
    if Passed(env, s, k, u) && More(env, s, u) then
      && Times(s, u) <= Times(r, u) && s.iters[u] <= r.iters[u]
      && (Steady(env, u) ==>
            Live(r, u) && r.iters[u] == s.iters[u] + 1 && Times(r, u) == Times(s, u) + [s.iters[u] + 1])
    else if Listed(s.queue, k, u) then
      Live(r, u) && r.iters[u] == s.iters[u] && Times(r, u) == Times(s, u)
    else
      && (Live(r, u) ==> Caused(env, s, k, u, false)) && (Caused(env, s, k, u, true) && !Live(s, u) ==> Live(r, u))
      && r.iters[u] == s.iters[u] && Times(r, u) == Times(s, u) + OneIf(Live(r, u), s.iters[u])
  }

  ghost predicate Monitored(env: Env, s: State, r: State, k: nat)
    requires WellFormed(env) && InScenario(env, s)
  {
    Clean(env, r) && forall u: nat {:trigger Live(r, u)} {:trigger Times(r, u)} | u < |env.tests| :: Became(env, s, r, k, u)
  }

  lemma BecameNext(env: Env, s: State, m: State, r: State, k: nat, u: nat)
    requires Dry(env) && Clean(env, s) && k < |s.queue| && Clean(env, m) && Clean(env, r) && u < |env.tests|
    requires Became(env, s, m, k, u) && Became(env, s, m, k, s.queue[k].test)
    requires var t := s.queue[k].test;
             || (More(env, s, t) && Repeats(env, m, r, t))
             || ((!More(env, s, t) || !Steady(env, t)) && Hands(env, m, r, t, Released(env, m, t)))
    ensures Became(env, s, r, k + 1, u)
  {
    var t := s.queue[k].test;
    ListedNext(s.queue, k, u);
    ListedNext(s.queue, k, t);
    assert !Listed(s.queue, k + 1, t);
    assert Live(s, t);
    if StartPostComp in env.tests[u].deps {
      ListedNext(s.queue, k, env.tests[u].deps[StartPostComp]);
    }
    assert Live(r, u) == Live(r, u);
    assert Times(r, u) == Times(r, u);
  }

  lemma {:induction false} MonitorMonitors(env: Env, s: State, r: State, k: nat)
    requires Dry(env) && Clean(env, s) && k <= |s.queue| && Monitored(env, s, r, k)
    ensures Monitored(env, s, Monitor(env, r, s.queue, k), |s.queue|)
    decreases |s.queue| - k
  {
    if k < |s.queue| {
      var t := s.queue[k].test;
      MonitorsNext(env, s, r, k);
      MonitorMonitors(env, s, Complete(env, Note(r, Checked(t, true)), t), k + 1);
    }
  }

  lemma MonitorsNext(env: Env, s: State, r: State, k: nat)
    requires Dry(env) && Clean(env, s) && k < |s.queue| && Monitored(env, s, r, k)
    ensures var t := s.queue[k].test; Monitored(env, s, Complete(env, Note(r, Checked(t, true)), t), k + 1)
  {
    var t, next := s.queue[k].test, k + 1;
    var n := Note(r, Checked(t, true));
    NoteStarts(env, r, Checked(t, true));
    forall u: nat | u < |env.tests| ensures Became(env, s, n, k, u) {
      assert Live(n, u) == Live(r, u) && Times(n, u) == Times(r, u);
    }
    assert Listed(s.queue, k, t);
    assert Became(env, s, n, k, t);
    var q := Complete(env, n, t);
    CompleteEither(env, n, t);
    forall u: nat | u < |env.tests| ensures Became(env, s, q, next, u) {
      BecameNext(env, s, n, q, k, u);
    }
  }

  // ----- The whole turn -----

  /** Listed when the turn begins, or started by its polling pass. */
  predicate Up(env: Env, s: State, u: nat)
    requires u < |env.tests|
  {
    Live(s, u) || (StartPostInit in env.tests[u].deps && Live(s, env.tests[u].deps[StartPostInit]))
  }

  /** What `u` waits for completes its last iteration in this turn; or it may be killed in it. */
  predicate Freed(env: Env, s: State, u: nat, surely: bool)
    requires WellFormed(env) && InScenario(env, s) && u < |env.tests|
  {
    StartPostComp in env.tests[u].deps &&
    var x := env.tests[u].deps[StartPostComp];
    Up(env, s, x) && (!More(env, s, x) || (!surely && !Steady(env, x)))
  }

  /** What one turn makes of `u`: it begins when what it waits for to be up is listed; if it is up it
      completes one iteration and, when it has another one, begins that, unless it is killed; and it begins
      when what it waits for to be done is done.  Only for a test that is up, has no more iterations and is
      freed does the order inside the turn decide whether it begins again. */
  ghost predicate Turned(env: Env, s: State, r: State, u: nat)
    requires WellFormed(env) && InScenario(env, s) && InScenario(env, r) && u < |env.tests|
  {
    var times := Times(s, u) + OneIf(Up(env, s, u) && !Live(s, u), s.iters[u]);
    if Up(env, s, u) && More(env, s, u) then
      && times <= Times(r, u) && s.iters[u] <= r.iters[u]
      && (Steady(env, u) ==> Live(r, u) && r.iters[u] == s.iters[u] + 1 && Times(r, u) == times + [s.iters[u] + 1])
    else
      && (Live(r, u) ==> Freed(env, s, u, false)) && (Freed(env, s, u, true) && !Up(env, s, u) ==> Live(r, u))
      && r.iters[u] == s.iters[u] && Times(r, u) == times + OneIf(Live(r, u), s.iters[u])
  }

  ghost predicate AllTurned(env: Env, s: State, r: State)
    requires WellFormed(env) && InScenario(env, s)
  {
    Clean(env, r) && forall u: nat | u < |env.tests| :: Turned(env, s, r, u)
  }

  /** One turn of the loop acts on every test at once, by what is listed when it begins. */
  lemma RoundTurns(env: Env, s: State)
    requires Dry(env) && Clean(env, s)
    ensures AllTurned(env, s, Round(env, s))
  {
    var m := PollInit(env, s, s.queue, 0);
    var r := Monitor(env, m, m.queue, 0);
    PollInitStarts(env, s, s.queue, 0);
    forall v: nat ensures Listed(s.queue, 0, v) <==> Live(s, v) {}
    forall v: nat ensures Listed(m.queue, 0, v) <==> Live(m, v) {}
    assert forall v: nat | v < |env.tests| :: Became(env, m, m, 0, v);
    MonitorMonitors(env, m, m, 0);
    forall v: nat ensures !Listed(m.queue, |m.queue|, v) {}
    forall u: nat | u < |env.tests| ensures Turned(env, s, r, u) {
      TurnOf(env, s, m, r, u);
    }
  }

  lemma TurnOf(env: Env, s: State, m: State, r: State, u: nat)
    requires Dry(env) && Starts(env, s, m, Polls(env, s, s.queue, 0)) && Monitored(env, m, r, |m.queue|) && u < |env.tests|
    requires forall v: nat :: Listed(s.queue, 0, v) <==> Live(s, v)
    requires forall v: nat :: !Listed(m.queue, |m.queue|, v)
    ensures Turned(env, s, r, u)
  {
    assert Live(m, u) <==> Up(env, s, u);
    if StartPostComp in env.tests[u].deps {
      var x := env.tests[u].deps[StartPostComp];
      assert Live(m, x) <==> Up(env, s, x);
    }
    assert Times(r, u) == Times(r, u) && Live(r, u) == Live(r, u);
    assert Became(env, m, r, |m.queue|, u);
    assert Times(m, u) == Times(s, u) + OneIf(Up(env, s, u) && !Live(s, u), s.iters[u]);
  }

  // ----- The first submissions -----

  ghost function Roots(env: Env, i: nat): set<nat> {
    set t | i <= t < |env.tests| && IsRoot(env.tests[t])
  }

  lemma {:induction false} SubmitRootsStarts(env: Env, s: State, i: nat)
    requires env.dryRun && Clean(env, s) && i <= |env.tests| && forall t: nat | t >= i :: !Live(s, t)
    ensures Starts(env, s, SubmitRoots(env, s, i), Roots(env, i))
    decreases |env.tests| - i
  {
    if i < |env.tests| {
      var one: set<nat> := if IsRoot(env.tests[i]) then {i} else {};
      var m := if IsRoot(env.tests[i]) then Submit(env, s, i) else s;
      if one == {} { StartsNone(env, s); } else { SubmitStarts(env, s, i); }
      SubmitRootsStarts(env, m, i + 1);
      StartsBoth(env, s, m, SubmitRoots(env, m, i + 1), one, Roots(env, i + 1));
      assert one + Roots(env, i + 1) == Roots(env, i);
    } else {
      StartsNone(env, s);
      assert Roots(env, i) == {};
    }
  }

  /** The loop begins with exactly the roots. */
  lemma RootsBegin(env: Env, t: nat)
    requires Dry(env) && t < |env.tests|
    ensures var s := SubmitRoots(env, Fresh(env), 0);
            && Clean(env, s) && s.iters[t] == env.tests[t].first && (Live(s, t) <==> IsRoot(env.tests[t]))
            && Times(s, t) == OneIf(IsRoot(env.tests[t]), env.tests[t].first)
  {
    var s := SubmitRoots(env, Fresh(env), 0);
    SubmitRootsStarts(env, Fresh(env), 0);
    assert Times(s, t) == Times(Fresh(env), t) + OneIf(t in Roots(env, 0), Fresh(env).iters[t]);
    assert Live(s, t) <==> t in Roots(env, 0);
  }
}
