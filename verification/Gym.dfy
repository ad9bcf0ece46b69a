/** The environment and the driver loop with the objects they update.  `CloudAIGymEnv.Step` computes
    `GymModel.Step`, and the driver hands it every grid combination once, in order. */
module Gym {
  import opened Basics
  import opened ActionValues
  import opened Grid
  import opened GymModel
  import Runner
  import RunnerModel

  class CloudAIGymEnv {
    var testRun: Trial
    const originalTestRun: Trial
    var trajectory: map<nat, seq<Entry>>
    var runs: seq<Value>

    function Value(): GymModel.Gym
      reads this
    {
      GymModel.Gym(testRun, originalTestRun, trajectory, runs)
    }

    constructor (testRun: Trial)
      ensures Value() == GymModel.Fresh(testRun)
    {
      this.testRun, originalTestRun, trajectory, runs := testRun, testRun, map[], [];
    }

    /** `current_trajectory`: asking for the bucket creates it. */
    method CurrentTrajectory() returns (entries: seq<Entry>)
      modifies this`trajectory
      ensures entries == Bucket(old(Value()), testRun.iteration)
      ensures trajectory == old(trajectory)[testRun.iteration := entries]
    {
      if testRun.iteration !in trajectory {
        trajectory := trajectory[testRun.iteration := []];
      }
      entries := trajectory[testRun.iteration];
    }

    method GetCachedTrajectoryResult(action: Value) returns (r: Option<Entry>)
      modifies this`trajectory
      ensures trajectory == old(trajectory)[testRun.iteration := Bucket(old(Value()), testRun.iteration)]
      ensures r == Cached(Bucket(old(Value()), testRun.iteration), action)
    {
      var entries := CurrentTrajectory();
      for i := 0 to |entries|
        invariant Cached(entries, action) == Cached(entries[i..], action)
        invariant trajectory == old(trajectory)[testRun.iteration := entries]
      {
        assert entries[i..][0] == entries[i] && entries[i..][1..] == entries[i + 1..];
        if ValuesMatch(entries[i].action, action) { return Some(entries[i]); }
      }
      r := None;
    }

    method WriteTrajectory(entry: Entry)
      modifies this`trajectory
      ensures Value() == Log(old(Value()), entry)
    {
      var entries := CurrentTrajectory();
      trajectory := trajectory[testRun.iteration := entries + [entry]];
    }

    /** The runner on a fresh copy of the trial; whatever it raises is caught, but not an exit. */
    method RunTrial(w: World) returns (iteration: nat, exited: bool)
      ensures iteration == IterationAfter(testRun, w) && exited == Exits(testRun, w)
    {
      var runner := new Runner.BaseRunner(Scenario(testRun, w));
      runner.Run(w.rounds);
      iteration, exited := runner.testRuns[0].currentIteration, runner.exited;
    }

    /** `step`; the driver has set `test_run.step`. */
    method Step(action: Value, w: World) returns (r: Result<Reply>)
      modifies this
      ensures (Value(), r) == GymModel.Step(old(Value()), Call(old(testRun.step), action, w))
    {
      if w.applied.Raised? { return Raised(w.applied.message); }
      testRun := testRun.(params := w.applied.value);
      var cached := GetCachedTrajectoryResult(action);
      if cached.Some? { return Ok(Reply(cached.value.observation, cached.value.reward, false)); }
      if !w.allowed { return Ok(Reply([-1.0], w.failureReward, true)); }
      if w.placed.Raised? { return Raised(w.placed.message); }
      var iteration, exited := RunTrial(w);
      runs := runs + [action];
      if exited { return Raised("SystemExit"); }
      if w.hasOutput {
        testRun := testRun.(iteration := iteration);
      } else {
        testRun := originalTestRun.(step := testRun.step);
      }
      if w.outcome.Raised? { return Raised(w.outcome.message); }
      var (observation, reward) := w.outcome.value;
      WriteTrajectory(Entry(testRun.step, action, reward, observation));
      r := Ok(Reply(observation, reward, false));
    }
  }

  // ----- The driver -----

  /** The calls the driver makes: combination `i` at step `i + 1`. */
  function Calls(space: seq<Param>, worlds: nat -> World): (calls: seq<Call>)
    ensures |calls| == Count(Lists(space))
  {
    seq(Count(Lists(space)), i requires 0 <= i < Count(Lists(space)) => Call(i + 1, Actions(space)[i], worlds(i)))
  }

  /** Setting the step beforehand is part of the call. */
  lemma TurnIsCall(g: GymModel.Gym, c: Call)
    ensures GymModel.Step(g.(trial := g.trial.(step := c.step)), c) == GymModel.Step(g, c)
  {
  }

  /** The body of the loop: select, set the step, and take it. */
  method Turn(agent: GridSearchAgent, env: CloudAIGymEnv, worlds: nat -> World, n: nat) returns (reply: Result<Reply>)
    requires agent.Valid() && agent.index == n < agent.maxSteps
    modifies agent`index, env
    ensures agent.Valid() && agent.index == n + 1
    ensures (env.Value(), reply) == GymModel.Step(old(env.Value()), Calls(agent.space, worlds)[n])
  {
    TurnIsCall(env.Value(), Calls(agent.space, worlds)[n]);
    var selected := agent.SelectAction();
    var (step, action) := selected.value;
    env.testRun := env.testRun.(step := step);
    reply := env.Step(action, worlds(n));
  }

  predicate Replied(g: GymModel.Gym, c: Call) {
    GymModel.Step(g, c).1.Ok?
  }

  /** The first `n` calls have all been answered without an exception. */
  predicate AllReplied(states: seq<GymModel.Gym>, calls: seq<Call>, n: nat) {
    n <= |states| && n <= |calls| && forall k | 0 <= k < n :: Replied(states[k], calls[k])
  }

  lemma RepliedNext(states: seq<GymModel.Gym>, g: GymModel.Gym, calls: seq<Call>, n: nat)
    requires |states| == n + 1 && n < |calls| && AllReplied(states, calls, n)
    ensures AllReplied(states + [g], calls, n)
    ensures GymModel.Step(states[n], calls[n]).1.Ok? ==> AllReplied(states + [g], calls, n + 1)
  {
    var longer := states + [g];
    forall k | 0 <= k < n ensures Replied(longer[k], calls[k]) {
      assert Replied(states[k], calls[k]);
    }
    assert longer[n] == states[n];
  }

  /** The loop of `handle_dse_job` for one test run; `states` are the environment's states.  Without an
      exception every combination is tried exactly once, in order, and the list of combinations is never
      indexed out of range. */
  method HandleDseJob(space: seq<Param>, testRun: Trial, worlds: nat -> World)
    returns (env: CloudAIGymEnv, n: nat, failure: Option<string>, ghost states: seq<GymModel.Gym>)
    ensures var calls := Calls(space, worlds);
            && n <= |calls| && History(states, calls[..n], testRun) && env.Value() == states[n]
            && (failure == None ==> n == |calls|)
            && (failure.Some? ==> n > 0 && GymModel.Step(states[n - 1], calls[n - 1]).1 == Raised(failure.value))
            && AllReplied(states, calls, if failure == None then n else n - 1)
  {
    ghost var calls := Calls(space, worlds);
    env := new CloudAIGymEnv(testRun);
    var agent := new GridSearchAgent(space);
    n, states := 0, [env.Value()];
    while n < agent.maxSteps
      invariant agent.Valid() && agent.space == space && agent.index == n <= agent.maxSteps
      invariant History(states, calls[..n], testRun) && env.Value() == states[n]
      invariant AllReplied(states, calls, n)
    {
      var reply := Turn(agent, env, worlds, n);
      HistoryNext(states, calls, testRun, n);
      RepliedNext(states, env.Value(), calls, n);
      n, states := n + 1, states + [env.Value()];
      if reply.Raised? { return env, n, Some(reply.message), states; }
    }
    failure := None;
  }

  lemma HistoryNext(states: seq<GymModel.Gym>, calls: seq<Call>, trial: Trial, n: nat)
    requires n < |calls| && History(states, calls[..n], trial)
    ensures History(states + [GymModel.Step(states[n], calls[n]).0], calls[..n + 1], trial)
  {
    var longer, prefix := states + [GymModel.Step(states[n], calls[n]).0], calls[..n + 1];
    forall k | 0 <= k < n + 1 ensures Follows(longer, prefix, k) {
      assert k < n ==> Follows(states, calls[..n], k);
    }
  }
}
