/** A dry run that can enter no cycle of start edges ends: a weight pays for every iteration and every
    start that a live job can still cause. */
module RunnerTermination {
  import opened RunnerModel
  import opened RunnerSafety
  import opened RunnerOnce
  import opened RunnerCoverage

  /** Start edges from tests that can be submitted go up in rank. */
  ghost predicate EntryRanked(env: Env, rank: nat -> nat) {
    forall t, kind | 0 <= t < |env.tests| && kind in env.tests[t].deps && kind != EndPostComp
                     && Startable(env, env.tests[t].deps[kind])
      :: rank(env.tests[t].deps[kind]) < rank(t)
  }

  /** No run can get into a cycle of start edges. */
  ghost predicate EntersNoCycle(env: Env) {
    exists rank :: EntryRanked(env, rank)
  }

  lemma AcyclicEntersNoCycle(env: Env)
    requires Acyclic(env)
    ensures EntersNoCycle(env)
  {
    var rank :| Ranked(env, rank);
    assert EntryRanked(env, rank);
  }

  /** Turns of the loop one submission of `test` at iteration `i` lasts at most. */
  function RoundsLeft(test: Test, i: nat): nat {
    if test.iterations > i then test.iterations - i else 1
  }

  ghost function TopRank(env: Env, rank: nat -> nat, n: nat): (top: nat)
    ensures forall t | 0 <= t < n :: rank(t) <= top
  {
    if n == 0 then 0
    else
      var top := TopRank(env, rank, n - 1);
      if rank(n - 1) > top then rank(n - 1) else top
  }

  /** What one turn of a live job of `t` may cost: the turn itself and every dependent it starts. */
  ghost function Weight(env: Env, rank: nat -> nat, t: nat): nat
    requires EntryRanked(env, rank) && Startable(env, t)
    decreases TopRank(env, rank, |env.tests|) - rank(t), |env.tests| + 1
  {
    1 + Spawn(env, rank, t, StartPostInit, 0) + Spawn(env, rank, t, StartPostComp, 0)
  }

  /** The cost of starting every dependent of `t` of one kind, from position `i` on. */
  ghost function Spawn(env: Env, rank: nat -> nat, t: nat, kind: DepKind, i: nat): nat
    requires EntryRanked(env, rank) && Startable(env, t) && i <= |env.tests| && kind != EndPostComp
    decreases TopRank(env, rank, |env.tests|) - rank(t), |env.tests| - i
  {
    if i == |env.tests| then 0
    else
      (if DependsOn(env.tests[i], kind, t) then
         (StartableNext(env, kind, t, i); RoundsLeft(env.tests[i], env.tests[i].first) * Weight(env, rank, i)) else 0)
      + Spawn(env, rank, t, kind, i + 1)
  }

  ghost function Cost(env: Env, rank: nat -> nat, t: nat, i: nat): nat
    requires EntryRanked(env, rank) && Startable(env, t)
  {
    RoundsLeft(env.tests[t], i) * Weight(env, rank, t)
  }

  ghost predicate AllStartable(env: Env, queue: seq<LiveJob>) {
    forall k | 0 <= k < |queue| :: Startable(env, queue[k].test)
  }

  ghost function Potential(env: Env, rank: nat -> nat, queue: seq<LiveJob>, iters: seq<nat>): nat
    requires EntryRanked(env, rank) && |iters| == |env.tests|
    requires AllStartable(env, queue)
  {
    if queue == [] then 0
    else
      var j := queue[|queue| - 1];
      Potential(env, rank, queue[..|queue| - 1], iters) + Cost(env, rank, j.test, iters[j.test])
  }

  ghost predicate Ready(env: Env, rank: nat -> nat, s: State) {
    && env.dryRun && EntryRanked(env, rank) && Good(env, s) && !s.halted && AllStartable(env, s.queue)
    && forall t | 0 <= t < |env.tests| :: env.tests[t].first <= s.iters[t]
  }

  ghost function Measure(env: Env, rank: nat -> nat, s: State): nat
    requires Ready(env, rank, s)
  {
    Potential(env, rank, s.queue, s.iters)
  }

  lemma MulGrows(y: nat, x: nat, w: nat)
    requires y <= x
    ensures y * w <= x * w
  {
    assert x * w == y * w + (x - y) * w;
  }

  lemma CostFalls(env: Env, rank: nat -> nat, t: nat, i: nat, j: nat)
    requires EntryRanked(env, rank) && Startable(env, t) && i <= j
    ensures Cost(env, rank, t, i) >= Cost(env, rank, t, j) >= Weight(env, rank, t)
    ensures i + 1 < env.tests[t].iterations ==> Cost(env, rank, t, i) == Cost(env, rank, t, i + 1) + Weight(env, rank, t)
  {
    var w := Weight(env, rank, t);
    var x, y, z := RoundsLeft(env.tests[t], i), RoundsLeft(env.tests[t], j), RoundsLeft(env.tests[t], i + 1);
    MulGrows(y, x, w);
    MulGrows(1, y, w);
    assert x == z + 1 ==> x * w == z * w + w;
  }

  lemma PotentialAppend(env: Env, rank: nat -> nat, queue: seq<LiveJob>, j: LiveJob, iters: seq<nat>)
    requires EntryRanked(env, rank) && |iters| == |env.tests| && Startable(env, j.test)
    requires AllStartable(env, queue)
    ensures Potential(env, rank, queue + [j], iters) == Potential(env, rank, queue, iters) + Cost(env, rank, j.test, iters[j.test])
  {
    assert (queue + [j])[..|queue|] == queue;
  }

  lemma {:induction false} PotentialRemove(env: Env, rank: nat -> nat, queue: seq<LiveJob>, k: nat, iters: seq<nat>)
    requires EntryRanked(env, rank) && |iters| == |env.tests| && k < |queue|
    requires AllStartable(env, queue)
    ensures Potential(env, rank, queue, iters)
         == Potential(env, rank, queue[..k] + queue[k + 1..], iters) + Cost(env, rank, queue[k].test, iters[queue[k].test])
    decreases |queue|
  {
    var n := |queue| - 1;
    var front, last := queue[..n], queue[n];
    assert queue == front + [last];
    PotentialAppend(env, rank, front, last, iters);
    if k == n {
      assert queue[..k] + queue[k + 1..] == front;
    } else {
      var rest := front[..k] + front[k + 1..];
      PotentialRemove(env, rank, front, k, iters);
      assert queue[..k] + queue[k + 1..] == rest + [last];
      PotentialAppend(env, rank, rest, last, iters);
    }
  }

  lemma {:induction false} PotentialSame(env: Env, rank: nat -> nat, p: seq<LiveJob>, q: seq<LiveJob>, iters: seq<nat>, iters': seq<nat>)
    requires EntryRanked(env, rank) && |iters| == |iters'| == |env.tests| && |p| == |q|
    requires forall k | 0 <= k < |p| :: p[k].test == q[k].test && Startable(env, p[k].test) && iters[p[k].test] == iters'[p[k].test]
    ensures Potential(env, rank, p, iters) == Potential(env, rank, q, iters')
    decreases |p|
  {
    if p != [] {
      PotentialSame(env, rank, p[..|p| - 1], q[..|q| - 1], iters, iters');
    }
  }

  /** In a dry run a submission adds one job at its current iteration. */
  lemma SubmitPays(env: Env, rank: nat -> nat, s: State, t: nat)
    requires env.dryRun && EntryRanked(env, rank) && InScenario(env, s) && !s.halted && AllStartable(env, s.queue) && Startable(env, t)
    ensures var r := Submit(env, s, t);
            !r.halted && r.iters == s.iters && AllStartable(env, r.queue)
            && Potential(env, rank, r.queue, r.iters) == Potential(env, rank, s.queue, s.iters) + Cost(env, rank, t, s.iters[t])
  {
    assert Submit(env, s, t) == Note(s, Submitted(t, s.iters[t])).(queue := s.queue + [LiveJob(t, 0, false)]);
    PotentialAppend(env, rank, s.queue, LiveJob(t, 0, false), s.iters);
  }

  lemma StepPays(env: Env, rank: nat -> nat, s: State, kind: DepKind, a: nat, i: nat)
    requires Ready(env, rank, s) && i < |env.tests| && Startable(env, a) && Trigger(env, s, kind, a)
    ensures var r := if !Live(s, i) && DependsOn(env.tests[i], kind, a) then Submit(env, s, i) else s;
            && Ready(env, rank, r) && Trigger(env, r, kind, a)
            && (DependsOn(env.tests[i], kind, a) ==> Startable(env, i))
            && Measure(env, rank, r) <= Measure(env, rank, s)
                 + if DependsOn(env.tests[i], kind, a) then Cost(env, rank, i, env.tests[i].first) else 0
  {
    if DependsOn(env.tests[i], kind, a) {
      StartableNext(env, kind, a, i);
    }
    if !Live(s, i) && DependsOn(env.tests[i], kind, a) {
      StartOneGood(env, s, kind, a, i);
      SubmitPays(env, rank, s, i);
      CostFalls(env, rank, i, env.tests[i].first, s.iters[i]);
    }
  }

  lemma SpawnNext(env: Env, rank: nat -> nat, a: nat, kind: DepKind, i: nat)
    requires EntryRanked(env, rank) && Startable(env, a) && i < |env.tests| && kind != EndPostComp
    ensures DependsOn(env.tests[i], kind, a) ==> Startable(env, i)
    ensures Spawn(env, rank, a, kind, i)
         == Spawn(env, rank, a, kind, i + 1) + if DependsOn(env.tests[i], kind, a) then Cost(env, rank, i, env.tests[i].first) else 0
  {
    if DependsOn(env.tests[i], kind, a) {
      StartableNext(env, kind, a, i);
    }
  }

  lemma {:induction false} StartDependentsPays(env: Env, rank: nat -> nat, s: State, kind: DepKind, a: nat, i: nat)
    requires Ready(env, rank, s) && i <= |env.tests| && Startable(env, a) && Trigger(env, s, kind, a)
    ensures var r := StartDependents(env, s, kind, a, i);
            Ready(env, rank, r) && Measure(env, rank, r) <= Measure(env, rank, s) + Spawn(env, rank, a, kind, i)
    decreases |env.tests| - i
  {
    if i < |env.tests| {
      StepPays(env, rank, s, kind, a, i);
      var s' := if !Live(s, i) && DependsOn(env.tests[i], kind, a) then Submit(env, s, i) else s;
      StartDependentsPays(env, rank, s', kind, a, i + 1);
      SpawnNext(env, rank, a, kind, i);
    }
  }

  /** What polling the listed jobs may add. */
  ghost function PollCost(env: Env, rank: nat -> nat, snapshot: seq<LiveJob>, k: nat): nat
    requires EntryRanked(env, rank) && k <= |snapshot|
    requires AllStartable(env, snapshot)
    decreases |snapshot| - k
  {
    if k == |snapshot| then 0
    else Spawn(env, rank, snapshot[k].test, StartPostInit, 0) + PollCost(env, rank, snapshot, k + 1)
  }

  lemma PollOnePays(env: Env, rank: nat -> nat, s: State, t: nat)
    requires Ready(env, rank, s) && Live(s, t) && Startable(env, t)
    ensures var r := StartDependents(env, Note(s, Polled(t, true)), StartPostInit, t, 0);
            && Ready(env, rank, r) && Grown(s, r)
            && Measure(env, rank, r) <= Measure(env, rank, s) + Spawn(env, rank, t, StartPostInit, 0)
  {
    var s' := Note(s, Polled(t, true));
    NoteGood(env, s, Polled(t, true));
    Extend(s.log, Polled(t, true));
    assert Trigger(env, s', StartPostInit, t);
    StartDependentsPays(env, rank, s', StartPostInit, t, 0);
    StartDependentsGood(env, s', StartPostInit, t, 0);
  }

  lemma PollNext(env: Env, rank: nat -> nat, s: State, snapshot: seq<LiveJob>, k: nat)
    requires env.dryRun && EntryRanked(env, rank) && InScenario(env, s) && !s.halted && AllStartable(env, snapshot) && k < |snapshot|
    ensures var t := snapshot[k].test;
            && PollInit(env, s, snapshot, k)
               == PollInit(env, StartDependents(env, Note(s, Polled(t, true)), StartPostInit, t, 0), snapshot, k + 1)
            && PollCost(env, rank, snapshot, k) == Spawn(env, rank, t, StartPostInit, 0) + PollCost(env, rank, snapshot, k + 1)
  {
  }

  lemma {:induction false} PollPays(env: Env, rank: nat -> nat, s: State, snapshot: seq<LiveJob>, k: nat)
    requires Ready(env, rank, s) && k <= |snapshot| && AllLive(s, snapshot, k)
    requires AllStartable(env, snapshot)
    ensures var r := PollInit(env, s, snapshot, k);
            Ready(env, rank, r) && Grown(s, r) && Measure(env, rank, r) <= Measure(env, rank, s) + PollCost(env, rank, snapshot, k)
    decreases |snapshot| - k
  {
    if k < |snapshot| {
      var t := snapshot[k].test;
      assert Live(s, t);
      var s' := StartDependents(env, Note(s, Polled(t, true)), StartPostInit, t, 0);
      PollOnePays(env, rank, s, t);
      PollNext(env, rank, s, snapshot, k);
      forall i | k + 1 <= i < |snapshot| ensures Live(s', snapshot[i].test) {
        GrownKeepsLive(s, s', snapshot[i].test);
      }
      PollPays(env, rank, s', snapshot, k + 1);
      GrownTransitive(s, s', PollInit(env, s', snapshot, k + 1));
    }
  }

  lemma HandleDependenciesPays(env: Env, rank: nat -> nat, s: State, a: nat)
    requires Ready(env, rank, s) && Startable(env, a) && JustFinished(env, s.log, a)
    ensures var r := HandleDependencies(env, s, a);
            Ready(env, rank, r) && Measure(env, rank, r) <= Measure(env, rank, s) + Spawn(env, rank, a, StartPostComp, 0)
  {
    StartDependentsPays(env, rank, s, StartPostComp, a, 0);
    StartDependentsGood(env, s, StartPostComp, a, 0);
    var s' := StartDependents(env, s, StartPostComp, a, 0);
    KillDependentsGood(env, s', a, 0);
    var r := KillDependents(env, s', a, 0);
    PotentialSame(env, rank, r.queue, s'.queue, r.iters, s'.iters);
  }

  /** Taking a job off the list gives back at least one turn of it. */
  lemma RemovePays(env: Env, rank: nat -> nat, s: State, k: nat)
    requires Ready(env, rank, s) && k < |s.queue| && JustDone(s.log, s.queue[k].test)
    ensures var t := s.queue[k].test;
            var r := TakeOff(s, k);
            && Ready(env, rank, r) && !Live(r, t) && (forall j | 0 <= j < |r.queue| :: r.queue[j].test != t)
            && Measure(env, rank, r) + Cost(env, rank, t, s.iters[t]) == Measure(env, rank, s)
  {
    RemoveGood(env, s, k);
    PotentialRemove(env, rank, s.queue, k, s.iters);
  }

  /** Re-running costs one iteration less than before. */
  lemma RerunPays(env: Env, rank: nat -> nat, s: State, t: nat, i: nat)
    requires Ready(env, rank, s) && Startable(env, t) && !Live(s, t) && MayRerun(env, s.log, t, i) && s.iters[t] < i
    requires forall j | 0 <= j < |s.queue| :: s.queue[j].test != t
    ensures var r := Submit(env, s.(iters := s.iters[t := i]), t);
            Ready(env, rank, r) && Measure(env, rank, r) == Measure(env, rank, s) + Cost(env, rank, t, i)
  {
    RerunGood(env, s, t, i);
    PotentialSame(env, rank, s.queue, s.queue, s.iters, s.iters[t := i]);
    SubmitPays(env, rank, s.(iters := s.iters[t := i]), t);
  }

  /** What a completion gives back: its turn, and the dependents of the test. */
  lemma CostCovers(env: Env, rank: nat -> nat, t: nat, i: nat)
    requires EntryRanked(env, rank) && Startable(env, t)
    ensures Cost(env, rank, t, i) >= 1 + Spawn(env, rank, t, StartPostInit, 0) + Spawn(env, rank, t, StartPostComp, 0)
    ensures i + 1 < env.tests[t].iterations ==>
              Cost(env, rank, t, i) >= Cost(env, rank, t, i + 1) + 1 + Spawn(env, rank, t, StartPostInit, 0)
  {
    CostFalls(env, rank, t, i, i);
  }

  lemma ResumePays(env: Env, rank: nat -> nat, s: State, t: nat, terminated: bool)
    requires Ready(env, rank, s) && Startable(env, t) && !Live(s, t) && JustCompleted(s, t, terminated)
    requires forall j | 0 <= j < |s.queue| :: s.queue[j].test != t
    ensures var r := Resume(env, s, t, terminated);
            Ready(env, rank, r) && Measure(env, rank, r) + 1 + Spawn(env, rank, t, StartPostInit, 0)
                                   <= Measure(env, rank, s) + Cost(env, rank, t, s.iters[t])
  {
    CostCovers(env, rank, t, s.iters[t]);
    if env.tests[t].step > 0 {
    } else if !terminated && s.iters[t] + 1 < env.tests[t].iterations {
      RerunPays(env, rank, s, t, s.iters[t] + 1);
    } else {
      HandleDependenciesPays(env, rank, s, t);
    }
  }

  lemma CompletePays(env: Env, rank: nat -> nat, s: State, t: nat)
    requires Ready(env, rank, s) && Live(s, t) && JustDone(s.log, t)
    ensures var r := Complete(env, s, t);
            Ready(env, rank, r) && Measure(env, rank, r) + 1 + Spawn(env, rank, t, StartPostInit, 0) <= Measure(env, rank, s)
  {
    var k := FindJob(s.queue, t);
    RemovePays(env, rank, s, k);
    ResumePays(env, rank, TakeOff(s, k), t, s.queue[k].terminated);
  }

  lemma {:induction false} MonitorPays(env: Env, rank: nat -> nat, s: State, snapshot: seq<LiveJob>, k: nat)
    requires Ready(env, rank, s) && k <= |snapshot| && Distinct(snapshot) && AllLive(s, snapshot, k)
    requires AllStartable(env, snapshot)
    ensures var r := Monitor(env, s, snapshot, k);
            Ready(env, rank, r)
            && Measure(env, rank, r) + PollCost(env, rank, snapshot, k) + |snapshot| - k <= Measure(env, rank, s)
    decreases |snapshot| - k
  {
    if k < |snapshot| {
      var t := snapshot[k].test;
      assert Live(s, t);
      var e := Checked(t, true);
      NoteGood(env, s, e);
      Extend(s.log, e);
      var s' := Note(s, e);
      assert Live(s', t);
      CompletePays(env, rank, s', t);
      CompleteGood(env, s', t);
      var r := Complete(env, s', t);
      forall i | k + 1 <= i < |snapshot| ensures Live(r, snapshot[i].test) {
        assert Live(s, snapshot[i].test);
        assert Live(s', snapshot[i].test);
      }
      MonitorPays(env, rank, r, snapshot, k + 1);
    }
  }

  lemma {:induction false} PollCostGrows(env: Env, rank: nat -> nat, p: seq<LiveJob>, q: seq<LiveJob>, k: nat)
    requires EntryRanked(env, rank) && k <= |p| <= |q| && q[..|p|] == p
    requires AllStartable(env, q)
    ensures PollCost(env, rank, p, k) <= PollCost(env, rank, q, k)
    decreases |p| - k
  {
    if k < |p| {
      assert q[..|p|][k] == q[k];
      PollCostGrows(env, rank, p, q, k + 1);
    }
  }

  /** Every turn of the loop lowers the measure by at least the number of listed jobs. */
  lemma RoundPays(env: Env, rank: nat -> nat, s: State)
    requires Ready(env, rank, s)
    ensures Ready(env, rank, Round(env, s))
    ensures Measure(env, rank, Round(env, s)) + |s.queue| <= Measure(env, rank, s)
  {
    forall i | 0 <= i < |s.queue| ensures Live(s, s.queue[i].test) {}
    PollPays(env, rank, s, s.queue, 0);
    var s' := PollInit(env, s, s.queue, 0);
    forall i | 0 <= i < |s'.queue| ensures Live(s', s'.queue[i].test) {}
    MonitorPays(env, rank, s', s'.queue, 0);
    PollCostGrows(env, rank, s.queue, s'.queue, 0);
  }

  lemma {:induction false} RoundsEnd(env: Env, rank: nat -> nat, s: State, rounds: nat)
    requires Ready(env, rank, s) && Measure(env, rank, s) <= rounds
    ensures EndedNormally(Rounds(env, s, rounds))
    decreases rounds
  {
    if s.queue != [] {
      RoundPays(env, rank, s);
      RoundsEnd(env, rank, Round(env, s), rounds - 1);
    }
  }

  lemma {:induction false} RootsReady(env: Env, rank: nat -> nat, s: State, i: nat)
    requires Ready(env, rank, s) && i <= |env.tests| && RootsBefore(s, i)
    ensures Ready(env, rank, SubmitRoots(env, s, i))
    decreases |env.tests| - i
  {
    if i < |env.tests| {
      if IsRoot(env.tests[i]) {
        RootReady(env, rank, s, i);
      }
      RootsReady(env, rank, if IsRoot(env.tests[i]) then Submit(env, s, i) else s, i + 1);
    }
  }

  lemma RootReady(env: Env, rank: nat -> nat, s: State, i: nat)
    requires Ready(env, rank, s) && i < |env.tests| && RootsBefore(s, i) && IsRoot(env.tests[i])
    ensures Ready(env, rank, Submit(env, s, i)) && RootsBefore(Submit(env, s, i), i + 1)
  {
    SubmitRootGood(env, s, i);
    assert StartableBy(env, i, 0);
    SubmitPays(env, rank, s, i);
  }

  ghost function DryRunBound(env: Env, rank: nat -> nat): nat
    requires env.dryRun && EntryRanked(env, rank)
  {
    RootsReady(env, rank, Fresh(env), 0);
    Measure(env, rank, SubmitRoots(env, Fresh(env), 0))
  }

  ghost predicate EndsWithin(env: Env, bound: nat) {
    forall rounds: nat | rounds >= bound :: EndedNormally(Run(env, rounds))
  }

  /** A dry run that can enter no cycle of start edges returns after boundedly many turns, whatever the iteration
      counts, with nothing raised and nothing left on the list. */
  lemma DryRunTerminates(env: Env)
    requires env.dryRun && EntersNoCycle(env)
    ensures exists bound: nat :: EndsWithin(env, bound)
  {
    var rank :| EntryRanked(env, rank);
    RootsReady(env, rank, Fresh(env), 0);
    var bound := DryRunBound(env, rank);
    forall rounds: nat | rounds >= bound ensures EndedNormally(Run(env, rounds)) {
      RoundsEnd(env, rank, SubmitRoots(env, Fresh(env), 0), rounds);
    }
    assert EndsWithin(env, bound);
  }
}
