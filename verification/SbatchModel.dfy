/** What the single-sbatch runner computes over all test runs of a scenario, and how its numbering of
    combinations agrees with the agent's. */
module SbatchModel {
  import opened Basics
  import opened ActionValues
  import opened Grid
  import opened GymModel
  import opened TimeLimits
  import Gym
  import NestedDicts
  import FlatDicts
  import ParamSpaces
  import SlurmModel
  import SlurmSpecs
  import Sorting

  datatype Nodes = Fixed(n: int) | Choice(ns: seq<int>)

  /** A test run of the scenario, with its command arguments and environment variables. */
  datatype Case = Case(args: ParamSpaces.Args, vars: ParamSpaces.Args, numNodes: Nodes, nodes: seq<string>, timeLimit: Option<string>)

  /** A test run that the sbatch script executes. */
  datatype Job = Job(step: nat, action: Option<Value>, nnodes: int, nodes: seq<string>, timeLimit: Option<string>)

  function NodeChoice(c: Case): Option<seq<Value>> {
    match c.numNodes case Choice(ns) => Some(Ints(ns)) case Fixed(_) => None
  }

  predicate IsDse(c: Case) {
    ParamSpaces.IsDseJob(c.args, c.vars, NodeChoice(c))
  }

  function ParamSpace(c: Case): seq<Param> {
    ParamSpaces.ParamSpace(c.args, c.vars, NodeChoice(c))
  }

  function Ints(ns: seq<int>): (r: seq<Value>)
    ensures |r| == |ns|
  {
    seq(|ns|, i requires 0 <= i < |ns| => Int(ns[i]))
  }

  /** `all_combinations`. */
  function AllCombinations(c: Case): seq<Value> {
    if !IsDse(c) || ParamSpace(c) == [] then [] else Actions(ParamSpace(c))
  }

  /** `nnodes` after the action has been applied. */
  function NodesAfter(c: Case, action: Value): int {
    if action.Dict? && "NUM_NODES" in action.fields && action.fields["NUM_NODES"].Int? then action.fields["NUM_NODES"].n
    else if c.numNodes.Fixed? then c.numNodes.n
    else 0
  }

  /** `unroll_dse` after `n` of the combinations; `allowed` is the constraint check. */
  function Unrolled(c: Case, combos: seq<Value>, allowed: Value -> bool, n: nat): seq<Job>
    requires n <= |combos|
  {
    if n == 0 then []
    else
      var action := combos[n - 1];
      Unrolled(c, combos, allowed, n - 1) +
        if allowed(action) then [Job(n, Some(action), NodesAfter(c, action), c.nodes, c.timeLimit)] else []
  }

  function Jobs(c: Case, allowed: Value -> bool): seq<Job> {
    if IsDse(c) then var combos := AllCombinations(c); Unrolled(c, combos, allowed, |combos|)
    else [Job(0, None, if c.numNodes.Fixed? then c.numNodes.n else 0, c.nodes, c.timeLimit)]
  }

  /** `all_trs`. */
  function AllJobs(cases: seq<Case>, allowed: (nat, Value) -> bool): seq<Job> {
    if cases == [] then []
    else
      var last := |cases| - 1;
      AllJobs(cases[..last], allowed) + Jobs(cases[last], Column(allowed, last))
  }

  /** The constraint check of test run `i`. */
  function Column(allowed: (nat, Value) -> bool, i: nat): Value -> bool {
    (a: Value) => allowed(i, a)
  }

  // ----- Time limits -----

  predicate HasLimit(j: Job) {
    j.timeLimit.Some? && j.timeLimit.value != []
  }

  function CountLimits(jobs: seq<Job>): (n: nat)
    ensures n <= |jobs|
  {
    if jobs == [] then 0
    else CountLimits(jobs[..|jobs| - 1]) + if HasLimit(jobs[|jobs| - 1]) then 1 else 0
  }

  /** The running total; adding beyond the range of `timedelta` raises like parsing does. */
  function TotalLimit(jobs: seq<Job>): Result<int> {
    if jobs == [] then Ok(0)
    else
      var front, j := TotalLimit(jobs[..|jobs| - 1]), jobs[|jobs| - 1];
      if front.Raised? || !HasLimit(j) then front else Added(front.value, j)
  }

  /** `total += parse_time_limit(tr.time_limit)`. */
  function Added(total: int, j: Job): Result<int>
    requires HasLimit(j)
  {
    var limit := ParseTimeLimit(j.timeLimit.value);
    if limit.Raised? then limit else Delta(total + limit.value)
  }

  lemma TotalNext(jobs: seq<Job>, k: nat)
    requires k < |jobs| && TotalLimit(jobs[..k]).Ok?
    ensures TotalLimit(jobs[..k + 1]) ==
            if HasLimit(jobs[k]) then Added(TotalLimit(jobs[..k]).value, jobs[k]) else TotalLimit(jobs[..k])
    ensures CountLimits(jobs[..k + 1]) == CountLimits(jobs[..k]) + if HasLimit(jobs[k]) then 1 else 0
  {
    assert jobs[..k + 1][..k] == jobs[..k];
  }

  /** `build_time_limit`. */
  function BuildTimeLimit(jobs: seq<Job>): Result<Option<string>> {
    var total := TotalLimit(jobs);
    if total.Raised? then Raised(total.message)
    else if CountLimits(jobs) == 0 then Ok(None)
    else if CountLimits(jobs) != |jobs| then Raised("All tests must have a time limit or none of them")
    else Ok(Some(FormatTimeLimit(total.value)))
  }

  predicate Readable(j: Job) {
    HasLimit(j) ==> ParseTimeLimit(j.timeLimit.value).Ok?
  }

  /** The sum of the limits that can be read. */
  function Sum(jobs: seq<Job>): int {
    if jobs == [] then 0
    else
      var j := jobs[|jobs| - 1];
      Sum(jobs[..|jobs| - 1]) + if HasLimit(j) && Readable(j) then ParseTimeLimit(j.timeLimit.value).value else 0
  }

  lemma {:induction false} TotalIsSum(jobs: seq<Job>)
    ensures TotalLimit(jobs).Ok? ==> TotalLimit(jobs).value == Sum(jobs) && InRange(Sum(jobs))
    decreases |jobs|
  {
    if jobs != [] {
      TotalIsSum(jobs[..|jobs| - 1]);
    }
  }

  lemma {:induction false} TotalIsRead(jobs: seq<Job>)
    requires TotalLimit(jobs).Ok?
    ensures forall k | 0 <= k < |jobs| :: Readable(jobs[k])
    decreases |jobs|
  {
    if jobs != [] {
      var front := jobs[..|jobs| - 1];
      TotalIsRead(front);
      assert jobs == front + [jobs[|jobs| - 1]];
    }
  }

  lemma {:induction false} CountExtremes(jobs: seq<Job>)
    ensures CountLimits(jobs) == 0 <==> forall k | 0 <= k < |jobs| :: !HasLimit(jobs[k])
    ensures CountLimits(jobs) == |jobs| <==> forall k | 0 <= k < |jobs| :: HasLimit(jobs[k])
    decreases |jobs|
  {
    if jobs != [] {
      var front := jobs[..|jobs| - 1];
      CountExtremes(front);
      assert jobs == front + [jobs[|jobs| - 1]];
    }
  }

  /** No limit comes out exactly when no run has one; a mix always raises; and when every run has one,
      the printed limit reads as the sum of theirs exactly when that sum is not negative. */
  lemma BuiltLimit(jobs: seq<Job>)
    ensures var r := BuildTimeLimit(jobs);
            && (r == Ok(None) <==> forall k | 0 <= k < |jobs| :: !HasLimit(jobs[k]))
            && ((exists k | 0 <= k < |jobs| :: HasLimit(jobs[k])) && (exists k | 0 <= k < |jobs| :: !HasLimit(jobs[k])) ==> r.Raised?)
            && (r.Ok? && r.value.Some? ==>
                  && (forall k | 0 <= k < |jobs| :: HasLimit(jobs[k]) && Readable(jobs[k]))
                  && (ParseTimeLimit(r.value.value) == Ok(Sum(jobs)) <==> Sum(jobs) >= 0))
  {
    TotalIsSum(jobs);
    CountExtremes(jobs);
    if forall k | 0 <= k < |jobs| :: !HasLimit(jobs[k]) {
      NoLimitsNoTotal(jobs);
    }
    if BuildTimeLimit(jobs).Ok? && BuildTimeLimit(jobs).value.Some? {
      TotalIsRead(jobs);
      RoundTripIffNotNegative(Sum(jobs));
    }
  }

  lemma {:induction false} NoLimitsNoTotal(jobs: seq<Job>)
    requires forall k | 0 <= k < |jobs| :: !HasLimit(jobs[k])
    ensures TotalLimit(jobs) == Ok(0)
    decreases |jobs|
  {
    if jobs != [] {
      NoLimitsNoTotal(jobs[..|jobs| - 1]);
    }
  }

  /** Every limit reads, and no running total leaves the range of `timedelta`. */
  predicate Summable(jobs: seq<Job>) {
    jobs == [] || (Summable(jobs[..|jobs| - 1]) && Readable(jobs[|jobs| - 1]) && InRange(Sum(jobs)))
  }

  /** So a mix is the only other reason to raise. */
  lemma {:induction false} TotalIffSummable(jobs: seq<Job>)
    ensures TotalLimit(jobs).Ok? <==> Summable(jobs)
    decreases |jobs|
  {
    if jobs != [] {
      TotalIffSummable(jobs[..|jobs| - 1]);
      TotalIsSum(jobs[..|jobs| - 1]);
    }
  }

  // ----- Nodes -----

  function MaxNodes(jobs: seq<Job>): (n: int)
    ensures n >= 1
  {
    if jobs == [] then 1 else Max(MaxNodes(jobs[..|jobs| - 1]), jobs[|jobs| - 1].nnodes)
  }

  function NodeLists(jobs: seq<Job>): seq<string> {
    if jobs == [] then [] else NodeLists(jobs[..|jobs| - 1]) + jobs[|jobs| - 1].nodes
  }

  /** `extract_sbatch_nodes_spec`, given what `get_nodes_by_spec` makes of all the node lists. */
  function NodesSpec(jobs: seq<Job>, resolved: Result<(int, seq<string>)>): Result<(int, seq<string>)> {
    match resolved
    case Raised(m) => Raised(m)
    case Ok((_, names)) =>
      if names == [] then Ok((MaxNodes(jobs), []))
      else if MaxNodes(jobs) <= |names| then Ok((|names|, names))
      else Raised("the nodes list does not cover the max number of nodes")
  }

  lemma {:induction false} MaxCovers(jobs: seq<Job>)
    ensures forall k | 0 <= k < |jobs| :: jobs[k].nnodes <= MaxNodes(jobs)
    ensures MaxNodes(jobs) == 1 || exists k | 0 <= k < |jobs| :: jobs[k].nnodes == MaxNodes(jobs)
    decreases |jobs|
  {
    if jobs != [] {
      var front, last := jobs[..|jobs| - 1], jobs[|jobs| - 1];
      MaxCovers(front);
      assert jobs == front + [last];
      if k :| 0 <= k < |front| && front[k].nnodes == MaxNodes(front) {
        assert jobs[k].nnodes == MaxNodes(front);
      }
    }
  }

  lemma {:induction false} NoNodeLists(jobs: seq<Job>)
    ensures NodeLists(jobs) == [] <==> forall k | 0 <= k < |jobs| :: jobs[k].nodes == []
    decreases |jobs|
  {
    if jobs != [] {
      NoNodeLists(jobs[..|jobs| - 1]);
      assert jobs == jobs[..|jobs| - 1] + [jobs[|jobs| - 1]];
    }
  }

  /** The script asks for enough nodes for every run: the largest count when no run names nodes; and
      otherwise all the named nodes, sorted and each once, or nothing when they are too few. */
  lemma SpecCoversEveryRun(jobs: seq<Job>, sys: SlurmModel.System, c: SlurmSpecs.Call)
    requires SlurmSpecs.IsCall(c, sys, NodeLists(jobs), [])
    ensures var r := NodesSpec(jobs, SlurmSpecs.NodesOf(MaxNodes(jobs), NodeLists(jobs), [], c));
            r.Ok? ==>
              && r.value.0 >= 1 && (forall k | 0 <= k < |jobs| :: jobs[k].nnodes <= r.value.0)
              && (r.value.1 == [] <==> forall k | 0 <= k < |jobs| :: jobs[k].nodes == [])
              && (r.value.1 == [] ==> r.value.0 == MaxNodes(jobs))
              && (r.value.1 != [] ==> r.value.0 == |r.value.1|)
              && SlurmModel.Distinct(r.value.1) && Sorting.Ordered(r.value.1, Sorting.StringLe)
  {
    SlurmSpecs.NodesBySpec(c, sys, MaxNodes(jobs), NodeLists(jobs), []);
    MaxCovers(jobs);
    NoNodeLists(jobs);
  }

  // ----- Numbering -----

  predicate Represents(combos: seq<Value>, allowed: Value -> bool, job: Job, n: nat)
    requires n <= |combos|
  {
    1 <= job.step <= n && job.action == Some(combos[job.step - 1]) && allowed(combos[job.step - 1])
  }

  predicate HasStep(jobs: seq<Job>, step: nat) {
    exists k | 0 <= k < |jobs| :: jobs[k].step == step
  }

  /** The allowed ones of the first `n` combinations in ascending order, each under the number it has in
      the grid whether or not others are skipped. */
  predicate Numbered(combos: seq<Value>, allowed: Value -> bool, jobs: seq<Job>, n: nat)
    requires n <= |combos|
  {
    && (forall k | 0 <= k < |jobs| :: Represents(combos, allowed, jobs[k], n))
    && (forall k, l | 0 <= k < l < |jobs| :: jobs[k].step < jobs[l].step)
    && (forall i | 0 <= i < n && allowed(combos[i]) :: HasStep(jobs, i + 1))
  }

  lemma HasStepMore(jobs: seq<Job>, more: seq<Job>, step: nat)
    ensures HasStep(jobs + more, step) <==> HasStep(jobs, step) || HasStep(more, step)
  {
    var all := jobs + more;
    if k :| 0 <= k < |jobs| && jobs[k].step == step { assert all[k].step == step; }
    if k :| 0 <= k < |more| && more[k].step == step { assert all[|jobs| + k].step == step; }
  }

  lemma NumberedMore(combos: seq<Value>, allowed: Value -> bool, before: seq<Job>, more: seq<Job>, n: nat)
    requires n < |combos| && Numbered(combos, allowed, before, n)
    requires if allowed(combos[n]) then |more| == 1 && more[0].step == n + 1 && more[0].action == Some(combos[n]) else more == []
    ensures Numbered(combos, allowed, before + more, n + 1)
  {
    var jobs := before + more;
    forall k | 0 <= k < |jobs| ensures Represents(combos, allowed, jobs[k], n + 1) {
      assert k < |before| ==> Represents(combos, allowed, before[k], n);
    }
    forall k, l | 0 <= k < l < |jobs| ensures jobs[k].step < jobs[l].step {
      assert Represents(combos, allowed, before[k], n);
    }
    forall i | 0 <= i < n + 1 && allowed(combos[i]) ensures HasStep(before + more, i + 1) {
      HasStepMore(before, more, i + 1);
      if i == n {
        assert more[0].step == i + 1;
      }
    }
  }

  lemma {:induction false} UnrolledNumbers(c: Case, combos: seq<Value>, allowed: Value -> bool, n: nat)
    requires n <= |combos|
    ensures Numbered(combos, allowed, Unrolled(c, combos, allowed, n), n)
    decreases n
  {
    if n > 0 {
      var before, action := Unrolled(c, combos, allowed, n - 1), combos[n - 1];
      UnrolledNumbers(c, combos, allowed, n - 1);
      var more := if allowed(action) then [Job(n, Some(action), NodesAfter(c, action), c.nodes, c.timeLimit)] else [];
      NumberedMore(combos, allowed, before, more, n - 1);
    }
  }

  /** `handle_dse` for one test run after `n` combinations: each under its number, constraints or not. */
  function Logged(combos: seq<Value>, outcome: nat -> Result<(seq<real>, real)>, n: nat): Result<seq<Entry>>
    requires n <= |combos|
  {
    if n == 0 then Ok([])
    else
      var before, last := Logged(combos, outcome, n - 1), outcome(n - 1);
      if before.Raised? then before
      else if last.Raised? then Raised(last.message)
      else Ok(before.value + [Entry(n, combos[n - 1], last.value.1, last.value.0)])
  }

  lemma {:induction false} LoggedNumbers(combos: seq<Value>, outcome: nat -> Result<(seq<real>, real)>, n: nat)
    requires n <= |combos|
    ensures Logged(combos, outcome, n).Ok? <==> forall i: nat | i < n :: outcome(i).Ok?
    ensures Logged(combos, outcome, n).Ok? ==>
              && |Logged(combos, outcome, n).value| == n
              && forall i | 0 <= i < n :: Logged(combos, outcome, n).value[i].step == i + 1
                                          && Logged(combos, outcome, n).value[i].action == combos[i]
    decreases n
  {
    if n > 0 {
      LoggedNumbers(combos, outcome, n - 1);
    }
  }

  function Row(outcome: (nat, nat) -> Result<(seq<real>, real)>, i: nat): nat -> Result<(seq<real>, real)> {
    (j: nat) => outcome(i, j)
  }

  function LoggedOne(c: Case, outcome: nat -> Result<(seq<real>, real)>): Result<seq<Entry>> {
    if IsDse(c) then Logged(AllCombinations(c), outcome, |AllCombinations(c)|) else Ok([])
  }

  function LoggedEach(cases: seq<Case>, outcome: (nat, nat) -> Result<(seq<real>, real)>): (logs: seq<Result<seq<Entry>>>)
    ensures |logs| == |cases|
  {
    seq(|cases|, i requires 0 <= i < |cases| => LoggedOne(cases[i], Row(outcome, i)))
  }

  /** All the values, or the first exception. */
  function Joined(logs: seq<Result<seq<Entry>>>): Result<seq<seq<Entry>>> {
    if logs == [] then Ok([])
    else
      var before, last := Joined(logs[..|logs| - 1]), logs[|logs| - 1];
      if before.Raised? then before
      else match last case Ok(entries) => Ok(before.value + [entries]) case Raised(m) => Raised(m)
  }

  /** `handle_dse`: one trajectory per test run, empty for one that is no design-space job. */
  function LoggedAll(cases: seq<Case>, outcome: (nat, nat) -> Result<(seq<real>, real)>): Result<seq<seq<Entry>>> {
    Joined(LoggedEach(cases, outcome))
  }

  lemma {:induction false} JoinedValues(logs: seq<Result<seq<Entry>>>)
    ensures Joined(logs).Ok? <==> forall i | 0 <= i < |logs| :: logs[i].Ok?
    ensures Joined(logs).Ok? ==> |Joined(logs).value| == |logs| && forall i | 0 <= i < |logs| :: logs[i] == Ok(Joined(logs).value[i])
    decreases |logs|
  {
    if logs != [] {
      var front := logs[..|logs| - 1];
      JoinedValues(front);
      assert logs == front + [logs[|logs| - 1]];
    }
  }

  /** The log of one test run: every combination in order under its number. */
  predicate IsLog(c: Case, log: seq<Entry>) {
    var combos := if IsDse(c) then AllCombinations(c) else [];
    |log| == |combos| && forall i | 0 <= i < |log| :: log[i].step == i + 1 && log[i].action == combos[i]
  }

  predicate NoneRaises(c: Case, outcome: nat -> Result<(seq<real>, real)>) {
    IsDse(c) ==> forall j: nat | j < |AllCombinations(c)| :: outcome(j).Ok?
  }

  lemma LoggedOneNumbers(c: Case, outcome: nat -> Result<(seq<real>, real)>)
    ensures LoggedOne(c, outcome).Ok? <==> NoneRaises(c, outcome)
    ensures LoggedOne(c, outcome).Ok? ==> IsLog(c, LoggedOne(c, outcome).value)
  {
    LoggedNumbers(AllCombinations(c), outcome, |AllCombinations(c)|);
  }

  predicate AllLogs(cases: seq<Case>, logs: seq<seq<Entry>>) {
    |logs| == |cases| && forall i | 0 <= i < |cases| :: IsLog(cases[i], logs[i])
  }

  predicate AllQuiet(cases: seq<Case>, outcome: (nat, nat) -> Result<(seq<real>, real)>) {
    forall i: nat | i < |cases| :: NoneRaises(cases[i], Row(outcome, i))
  }

  /** Unless some metric raises, every combination of every design-space job is logged under its number. */
  lemma LoggedAllNumbers(cases: seq<Case>, outcome: (nat, nat) -> Result<(seq<real>, real)>)
    ensures LoggedAll(cases, outcome).Ok? <==> AllQuiet(cases, outcome)
    ensures LoggedAll(cases, outcome).Ok? ==> AllLogs(cases, LoggedAll(cases, outcome).value)
  {
    var logs := LoggedEach(cases, outcome);
    JoinedValues(logs);
    forall i: nat | i < |cases|
      ensures logs[i].Ok? <==> NoneRaises(cases[i], Row(outcome, i))
      ensures logs[i].Ok? ==> IsLog(cases[i], logs[i].value)
    {
      LoggedOneNumbers(cases[i], Row(outcome, i));
    }
  }

  /** Every list among the arguments comes before a leaf with the same joined key that is no list. */
  predicate Hidden(c: Case) {
    ParamSpaces.Hidden(c.args, c.vars, NodeChoice(c))
  }

  /** Environment variables are flat. */
  predicate Proper(c: Case) {
    ParamSpaces.Flat(c.vars)
  }

  /** For a design-space job the script enumerates the agent's combinations if and only if some parameter is
      not hidden; otherwise the agent tries the empty combination once, and the script runs nothing. */
  lemma SameCombinationsIff(c: Case, allowed: Value -> bool)
    requires Proper(c) && IsDse(c)
    ensures AllCombinations(c) == Actions(ParamSpace(c)) <==> !Hidden(c)
    ensures Hidden(c) ==> |Actions(ParamSpace(c))| == 1 && Jobs(c, allowed) == []
  {
    ParamSpaces.NothingToExploreIff(c.args, c.vars, NodeChoice(c));
    if ParamSpace(c) == [] {
      assert Lists(ParamSpace(c)) == [];
      assert |Actions(ParamSpace(c))| == 1;
    }
  }

  /** With plain keys, as field names are, the script always enumerates the agent's combinations; and a test
      run with nothing to explore is run once as it is. */
  lemma PlainCase(c: Case, allowed: Value -> bool)
    requires Proper(c) && NestedDicts.Proper(c.args) && FlatDicts.Plain(c.args, '.')
    ensures IsDse(c) ==> ParamSpace(c) != [] && AllCombinations(c) == Actions(ParamSpace(c))
    ensures !IsDse(c) ==> ParamSpace(c) == [] && |Jobs(c, allowed)| == 1 && Jobs(c, allowed)[0].action == None
  {
    ParamSpaces.PlainKeysHideNothing(c.args, c.vars, NodeChoice(c));
  }

  /** A dotted argument that hides the only list. */
  function DottedArgs(): ParamSpaces.Args {
    [NestedDicts.Item("a", NestedDicts.Tree.Dict([NestedDicts.Item("b", NestedDicts.Leaf(List([Int(1)])))])),
     NestedDicts.Item("a.b", NestedDicts.Leaf(Int(2)))]
  }

  lemma DottedLeaves()
    ensures FlatDicts.Leaves(DottedArgs(), [], ".")
         == [NestedDicts.Item("a.b", NestedDicts.Leaf(List([Int(1)]))), NestedDicts.Item("a.b", NestedDicts.Leaf(Int(2)))]
  {
    var inner := DottedArgs()[0].tree.items;
    assert inner[..0] == [] && FlatDicts.Leaves(inner[..0], "a", ".") == [];
    assert "a" + "." + "b" == "a.b";
    assert FlatDicts.Leaves(inner, "a", ".") == [NestedDicts.Item("a.b", NestedDicts.Leaf(List([Int(1)])))];
    var front := DottedArgs()[..1];
    assert front[..0] == [] && FlatDicts.Leaves(front[..0], [], ".") == [];
    assert FlatDicts.Leaves(front, [], ".") == FlatDicts.Leaves(inner, "a", ".");
    assert DottedArgs()[..1] == front;
  }

  lemma DottedHasList()
    ensures ParamSpaces.HasList(DottedArgs())
  {
    var inner := DottedArgs()[0].tree.items;
    assert ParamSpaces.IsList(inner[0].tree);
    assert ParamSpaces.HasList(inner);
  }

  function DottedCase(): Case {
    Case(DottedArgs(), [], Fixed(1), [], None)
  }

  lemma DottedIsHidden()
    ensures ParamSpaces.AllOverwritten(FlatDicts.Leaves(DottedArgs(), [], "."))
  {
    DottedLeaves();
    var leaves := FlatDicts.Leaves(DottedArgs(), [], ".");
    assert leaves[1].key == leaves[0].key && !ParamSpaces.IsList(leaves[1].tree);
    assert ParamSpaces.Overwritten(leaves, 0);
  }

  /** This test run counts as exploration, and the script runs nothing of it. */
  lemma DottedKeyHidesParameter(allowed: Value -> bool)
    ensures IsDse(DottedCase()) && Jobs(DottedCase(), allowed) == [] && |Actions(ParamSpace(DottedCase()))| == 1
  {
    DottedHasList();
    DottedIsHidden();
    SameCombinationsIff(DottedCase(), allowed);
  }

  // ----- The agent and the script -----

  /** The step and action of each agent entry, and of each unrolled job. */
  function AgentSteps(entries: seq<Entry>): seq<(int, Value)> {
    seq(|entries|, i requires 0 <= i < |entries| => (entries[i].step, entries[i].action))
  }

  function JobSteps(jobs: seq<Job>): seq<(int, Value)> {
    seq(|jobs|, i requires 0 <= i < |jobs| => (jobs[i].step, if jobs[i].action.Some? then jobs[i].action.value else Null))
  }

  predicate AmongFirst(combos: seq<Value>, n: nat, action: Value)
    requires n <= |combos|
  {
    exists i | 0 <= i < n :: action == combos[i]
  }

  /** The log holds what the script unrolls of the first `n` combinations. */
  predicate InStep(c: Case, combos: seq<Value>, log: seq<Entry>, allowed: Value -> bool, n: nat)
    requires n <= |combos|
  {
    && AgentSteps(log) == JobSteps(Unrolled(c, combos, allowed, n))
    && forall k | 0 <= k < |log| :: AmongFirst(combos, n, log[k].action)
  }

  lemma NotYetLogged(combos: seq<Value>, log: seq<Entry>, n: nat)
    requires NoRepeats(combos) && n < |combos| && forall k | 0 <= k < |log| :: AmongFirst(combos, n, log[k].action)
    ensures Cached(log, combos[n]) == None
  {
    var r := Cached(log, combos[n]);
    if r.Some? {
      var k :| 0 <= k < |log| && log[k] == r.value;
      assert AmongFirst(combos, n, log[k].action);
      MatchIsEquality(r.value.action, combos[n]);
    }
  }

  lemma OneMoreEntry(c: Case, combos: seq<Value>, log: seq<Entry>, allowed: Value -> bool, n: nat, e: Entry)
    requires n < |combos| && InStep(c, combos, log, allowed, n) && e.step == n + 1 && e.action == combos[n]
    ensures InStep(c, combos, log + if allowed(e.action) then [e] else [], allowed, n + 1)
  {
    var log' := log + if allowed(e.action) then [e] else [];
    forall k | 0 <= k < |log'| ensures AmongFirst(combos, n + 1, log'[k].action) {
      if k < |log| {
        assert AmongFirst(combos, n, log[k].action);
      }
    }
    var more := if allowed(e.action) then [(n + 1, e.action)] else [];
    assert AgentSteps(log') == AgentSteps(log) + more;
    assert JobSteps(Unrolled(c, combos, allowed, n + 1)) == JobSteps(Unrolled(c, combos, allowed, n)) + more;
  }

  /** Calls that try the combinations in order, under the script's constraint check, none raising. */
  predicate Tries(calls: seq<Call>, combos: seq<Value>, allowed: Value -> bool) {
    |calls| == |combos| && forall i | 0 <= i < |calls| ::
      && calls[i].step == i + 1 && calls[i].action == combos[i] && calls[i].world.allowed == allowed(combos[i])
      && calls[i].world.applied.Ok? && calls[i].world.placed.Ok? && !Refused(calls[i].world) && calls[i].world.outcome.Ok?
  }

  /** A log that grows by entry `i` when combination `i` is new to it and allowed. */
  predicate GrowsBy(log: nat -> seq<Entry>, entry: nat -> Entry, combos: seq<Value>, allowed: Value -> bool, i: nat)
    requires i < |combos|
  {
    && entry(i).step == i + 1 && entry(i).action == combos[i]
    && (Cached(log(i), combos[i]) == None ==> log(i + 1) == log(i) + if allowed(combos[i]) then [entry(i)] else [])
  }

  lemma {:induction false} GrowingLog(c: Case, combos: seq<Value>, allowed: Value -> bool,
                                      log: nat -> seq<Entry>, entry: nat -> Entry, n: nat)
    requires NoRepeats(combos) && n <= |combos| && log(0) == []
    requires forall i | 0 <= i < |combos| :: GrowsBy(log, entry, combos, allowed, i)
    ensures InStep(c, combos, log(n), allowed, n)
    decreases n
  {
    if n > 0 {
      GrowingLog(c, combos, allowed, log, entry, n - 1);
      NotYetLogged(combos, log(n - 1), n - 1);
      assert GrowsBy(log, entry, combos, allowed, n - 1);
      OneMoreEntry(c, combos, log(n - 1), allowed, n - 1, entry(n - 1));
    }
  }

  lemma TryGrows(states: seq<GymModel.Gym>, trial: Trial, calls: seq<Call>, combos: seq<Value>, allowed: Value -> bool, n: nat)
    requires Tries(calls, combos, allowed) && History(states, calls, trial) && n < |calls|
    requires Cached(Entries(states[n]), combos[n]) == None
    ensures Entries(states[n + 1]) == Entries(states[n]) + if allowed(combos[n]) then [EntryOf(calls[n])] else []
  {
    CallInPlay(states, calls, trial, n);
  }

  lemma TriesLog(c: Case, combos: seq<Value>, allowed: Value -> bool, states: seq<GymModel.Gym>, trial: Trial, calls: seq<Call>)
    requires NoRepeats(combos) && Tries(calls, combos, allowed) && History(states, calls, trial)
    ensures InStep(c, combos, Entries(states[|calls|]), allowed, |combos|)
  {
    var log: nat -> seq<Entry> := (n: nat) => if n < |states| then Entries(states[n]) else [];
    var entry: nat -> Entry :=
      (n: nat) => if n < |calls| && calls[n].world.outcome.Ok? then EntryOf(calls[n]) else Entry(0, Null, 0.0, []);
    forall i | 0 <= i < |combos| ensures GrowsBy(log, entry, combos, allowed, i) {
      if Cached(log(i), combos[i]) == None {
        TryGrows(states, trial, calls, combos, allowed, i);
      }
    }
    GrowingLog(c, combos, allowed, log, entry, |combos|);
  }

  /** Parameters, not all of them hidden, without repeated values. */
  predicate Rich(c: Case) {
    IsDse(c) && !Hidden(c) && Proper(c) && forall k | 0 <= k < |ParamSpace(c)| :: NoRepeats(ParamSpace(c)[k].values)
  }

  lemma RichCombinationsDiffer(c: Case)
    requires Rich(c)
    ensures NoRepeats(AllCombinations(c)) && AllCombinations(c) == Actions(ParamSpace(c))
  {
    SameCombinationsIff(c, a => true);
    ParamSpaces.SpaceKeysDiffer(c.args, c.vars, NodeChoice(c));
    forall i, j | 0 <= i < j < |AllCombinations(c)| ensures AllCombinations(c)[i] != AllCombinations(c)[j] {
      ActionsDiffer(ParamSpace(c), i, j);
    }
  }

  /** Given the same constraint check and no exception, the agent logs exactly the jobs that the script
      unrolls, under the same step numbers. */
  lemma AgentLogsWhatScriptUnrolls(c: Case, trial: Trial, worlds: nat -> World, allowed: Value -> bool,
                                   states: seq<GymModel.Gym>)
    requires Rich(c) && Tries(Gym.Calls(ParamSpace(c), worlds), AllCombinations(c), allowed)
    requires History(states, Gym.Calls(ParamSpace(c), worlds), trial)
    ensures var combos := AllCombinations(c);
            AgentSteps(Entries(states[|combos|])) == JobSteps(Unrolled(c, combos, allowed, |combos|))
  {
    var combos, calls := AllCombinations(c), Gym.Calls(ParamSpace(c), worlds);
    RichCombinationsDiffer(c);
    TriesLog(c, combos, allowed, states, trial, calls);
  }
}
