/** `SingleSbatchRunner`: the loops over all test runs of the scenario. */
module SingleSbatch {
  import opened Basics
  import opened ActionValues
  import opened GymModel
  import opened TimeLimits
  import opened SbatchModel
  import SlurmModel
  import SlurmSpecs
  import SlurmAllocator

  class SingleSbatchRunner {
    const system: SlurmAllocator.SlurmSystem
    const testRuns: seq<Case>

    /** The constraint check of each test run on each combination. */
    const allowed: (nat, Value) -> bool

    constructor (system: SlurmAllocator.SlurmSystem, testRuns: seq<Case>, allowed: (nat, Value) -> bool)
      ensures this.system == system && this.testRuns == testRuns && this.allowed == allowed
    {
      this.system, this.testRuns, this.allowed := system, testRuns, allowed;
    }

    /** One combination. */
    static method UnrollOne(c: Case, combos: seq<Value>, allowed: Value -> bool, idx: nat, jobs: seq<Job>) returns (r: seq<Job>)
      requires idx < |combos| && jobs == Unrolled(c, combos, allowed, idx)
      ensures r == Unrolled(c, combos, allowed, idx + 1)
    {
      r := jobs;
      if allowed(combos[idx]) {
        r := r + [Job(idx + 1, Some(combos[idx]), NodesAfter(c, combos[idx]), c.nodes, c.timeLimit)];
      }
    }

    static method UnrollDse(c: Case, allowed: Value -> bool) returns (jobs: seq<Job>)
      ensures var combos := AllCombinations(c); jobs == Unrolled(c, combos, allowed, |combos|)
    {
      var combos := AllCombinations(c);
      jobs := [];
      for idx := 0 to |combos|
        invariant jobs == Unrolled(c, combos, allowed, idx)
      {
        jobs := UnrollOne(c, combos, allowed, idx, jobs);
      }
    }

    method AllTrs() returns (jobs: seq<Job>)
      ensures jobs == AllJobs(testRuns, allowed)
    {
      jobs := [];
      for i := 0 to |testRuns|
        invariant jobs == AllJobs(testRuns[..i], allowed)
      {
        var c := testRuns[i];
        assert testRuns[..i + 1][..i] == testRuns[..i];
        if IsDse(c) {
          var more := UnrollDse(c, Column(allowed, i));
          jobs := jobs + more;
        } else {
          jobs := jobs + [Job(0, None, if c.numNodes.Fixed? then c.numNodes.n else 0, c.nodes, c.timeLimit)];
        }
      }
      assert testRuns[..|testRuns|] == testRuns;
    }

    method BuildTimeLimit() returns (r: Result<Option<string>>)
      ensures r == SbatchModel.BuildTimeLimit(AllJobs(testRuns, allowed))
    {
      var jobs := AllTrs();
      var totalTrs, withLimit, total := 0, 0, 0;
      for k := 0 to |jobs|
        invariant totalTrs == k && withLimit == CountLimits(jobs[..k]) && TotalLimit(jobs[..k]) == Ok(total)
      {
        TotalNext(jobs, k);
        totalTrs := totalTrs + 1;
        if HasLimit(jobs[k]) {
          withLimit := withLimit + 1;
          var sum := Added(total, jobs[k]);
          if sum.Raised? {
            RaisedTotalStays(jobs, k + 1);
            return Raised(sum.message);
          }
          total := sum.value;
        }
      }
      assert jobs[..|jobs|] == jobs;
      if withLimit == 0 { return Ok(None); }
      if withLimit != totalTrs { return Raised("All tests must have a time limit or none of them"); }
      r := Ok(Some(FormatTimeLimit(total)));
    }

    static method CollectNodes(jobs: seq<Job>) returns (maxNodes: int, allNodeLists: seq<string>)
      ensures maxNodes == MaxNodes(jobs) && allNodeLists == NodeLists(jobs)
    {
      maxNodes, allNodeLists := 1, [];
      for k := 0 to |jobs|
        invariant maxNodes == MaxNodes(jobs[..k]) && allNodeLists == NodeLists(jobs[..k])
      {
        assert jobs[..k + 1][..k] == jobs[..k];
        maxNodes := Max(maxNodes, jobs[k].nnodes);
        allNodeLists := allNodeLists + jobs[k].nodes;
      }
      assert jobs[..|jobs|] == jobs;
    }

    /** `cluster(k)` is what sinfo and squeue print for the `k`-th node specification. */
    method ExtractSbatchNodesSpec(cluster: nat -> (Result<seq<SlurmModel.Node>>, Result<seq<SlurmModel.Node>>))
      returns (r: Result<(int, seq<string>)>, ghost c: SlurmSpecs.Call)
      requires system.Valid()
      modifies system, system.parts, system.owned
      ensures var jobs := AllJobs(testRuns, allowed);
              && system.Valid() && SlurmSpecs.IsCall(c, old(system.model), NodeLists(jobs), [])
              && system.model == c.states[|c.shares|]
              && r == NodesSpec(jobs, SlurmSpecs.NodesOf(MaxNodes(jobs), NodeLists(jobs), [], c))
    {
      var jobs := AllTrs();
      var maxNodes, allNodeLists := CollectNodes(jobs);
      var resolved, call := system.GetNodesBySpec(maxNodes, allNodeLists, [], cluster);
      c := call;
      if resolved.Raised? { return Raised(resolved.message), c; }
      var nodeList := resolved.value.1;
      if nodeList != [] {
        if maxNodes > |nodeList| { return Raised("the nodes list does not cover the max number of nodes"), c; }
        maxNodes := |nodeList|;
      }
      r := Ok((maxNodes, nodeList));
    }

    /** The inner loop of `handle_dse`: one new environment, one entry per combination. */
    static method LogCombinations(c: Case, outcome: nat -> Result<(seq<real>, real)>) returns (r: Result<seq<Entry>>)
      ensures var combos := AllCombinations(c); r == Logged(combos, outcome, |combos|)
    {
      var combos := AllCombinations(c);
      var entries: seq<Entry> := [];
      for idx := 0 to |combos|
        invariant Logged(combos, outcome, idx) == Ok(entries)
      {
        var metrics := outcome(idx);
        if metrics.Raised? {
          RaisedLogStays(combos, outcome, idx + 1, |combos|);
          return Raised(metrics.message);
        }
        entries := entries + [Entry(idx + 1, combos[idx], metrics.value.1, metrics.value.0)];
      }
      r := Ok(entries);
    }

    static method LogRun(c: Case, outcome: nat -> Result<(seq<real>, real)>) returns (r: Result<seq<Entry>>)
      ensures r == LoggedOne(c, outcome)
    {
      if !IsDse(c) { return Ok([]); }
      r := LogCombinations(c, outcome);
    }

    /** `handle_dse`. */
    method HandleDse(outcome: (nat, nat) -> Result<(seq<real>, real)>) returns (r: Result<seq<seq<Entry>>>)
      ensures r == LoggedAll(testRuns, outcome)
    {
      ghost var each := LoggedEach(testRuns, outcome);
      var logs: seq<seq<Entry>> := [];
      for i := 0 to |testRuns|
        invariant Joined(each[..i]) == Ok(logs)
      {
        assert each[..i + 1][..i] == each[..i];
        var log := LogRun(testRuns[i], Row(outcome, i));
        if log.Raised? {
          RaisedAllStays(each, i + 1);
          return Raised(log.message);
        }
        logs := logs + [log.value];
      }
      assert each[..|each|] == each;
      r := Ok(logs);
    }
  }

  lemma {:induction false} RaisedTotalStays(jobs: seq<Job>, k: nat)
    requires k <= |jobs| && TotalLimit(jobs[..k]).Raised?
    ensures TotalLimit(jobs) == TotalLimit(jobs[..k])
    decreases |jobs|
  {
    if k == |jobs| {
      assert jobs[..k] == jobs;
    } else {
      assert jobs[..|jobs| - 1][..k] == jobs[..k];
      RaisedTotalStays(jobs[..|jobs| - 1], k);
    }
  }

  lemma {:induction false} RaisedLogStays(combos: seq<Value>, outcome: nat -> Result<(seq<real>, real)>, k: nat, n: nat)
    requires k <= n <= |combos| && Logged(combos, outcome, k).Raised?
    ensures Logged(combos, outcome, n) == Logged(combos, outcome, k)
    decreases n
  {
    if k < n {
      RaisedLogStays(combos, outcome, k, n - 1);
    }
  }

  lemma {:induction false} RaisedAllStays(logs: seq<Result<seq<Entry>>>, k: nat)
    requires k <= |logs| && Joined(logs[..k]).Raised?
    ensures Joined(logs) == Joined(logs[..k])
    decreases |logs|
  {
    if k == |logs| {
      assert logs[..k] == logs;
    } else {
      assert logs[..|logs| - 1][..k] == logs[..k];
      RaisedAllStays(logs[..|logs| - 1], k);
    }
  }
}
