/** What the sbatch script runs of a whole scenario: the share of each test run, and what the time limit and the
    node count of the script are in terms of the test runs. */
module ScenarioRuns {
  import opened Basics
  import opened ActionValues
  import opened Grid
  import opened TimeLimits
  import opened SbatchModel
  import NestedDicts
  import FlatDicts
  import ParamSpaces
  import SlurmModel
  import SlurmSpecs
  import Sorting

  // ----- The share of each test run -----

  function Share(cases: seq<Case>, allowed: (nat, Value) -> bool, i: nat): seq<Job>
    requires i < |cases|
  {
    Jobs(cases[i], Column(allowed, i))
  }

  function Shares(cases: seq<Case>, allowed: (nat, Value) -> bool): (shares: seq<seq<Job>>)
    ensures |shares| == |cases| && forall i | 0 <= i < |cases| :: shares[i] == Share(cases, allowed, i)
  {
    seq(|cases|, i requires 0 <= i < |cases| => Share(cases, allowed, i))
  }

  function Concat(shares: seq<seq<Job>>): seq<Job> {
    if shares == [] then [] else Concat(shares[..|shares| - 1]) + shares[|shares| - 1]
  }

  /** Where share `i` begins. */
  function Start(shares: seq<seq<Job>>, i: nat): nat
    requires i <= |shares|
  {
    |Concat(shares[..i])|
  }

  lemma {:induction false} ConcatPrefix(shares: seq<seq<Job>>, i: nat)
    requires i <= |shares|
    ensures Concat(shares[..i]) <= Concat(shares)
    decreases |shares|
  {
    if i == |shares| {
      assert shares[..i] == shares;
    } else {
      var front := shares[..|shares| - 1];
      ConcatPrefix(front, i);
      assert front[..i] == shares[..i];
    }
  }

  lemma {:induction false} ConcatAt(shares: seq<seq<Job>>, i: nat)
    requires i < |shares|
    ensures Start(shares, 0) == 0 && Start(shares, |shares|) == |Concat(shares)|
    ensures Start(shares, i) + |shares[i]| == Start(shares, i + 1) <= |Concat(shares)|
    ensures forall k | 0 <= k < |shares[i]| :: Concat(shares)[Start(shares, i) + k] == shares[i][k]
  {
    ConcatPrefix(shares, i + 1);
    var upTo := shares[..i + 1];
    assert upTo[..i] == shares[..i] && upTo[i] == shares[i] && shares[..|shares|] == shares;
    assert Concat(upTo) == Concat(shares[..i]) + shares[i];
    forall k | 0 <= k < |shares[i]| ensures Concat(shares)[Start(shares, i) + k] == shares[i][k] {
      assert Concat(shares)[Start(shares, i) + k] == Concat(upTo)[Start(shares, i) + k];
    }
  }

  lemma {:induction false} ConcatOwner(shares: seq<seq<Job>>, k: nat) returns (i: nat, j: nat)
    requires k < |Concat(shares)|
    ensures i < |shares| && j < |shares[i]| && Concat(shares)[k] == shares[i][j]
    decreases |shares|
  {
    var front := shares[..|shares| - 1];
    if k < |Concat(front)| {
      i, j := ConcatOwner(front, k);
    } else {
      i, j := |shares| - 1, k - |Concat(front)|;
    }
  }

  lemma {:induction false} AllAreShares(cases: seq<Case>, allowed: (nat, Value) -> bool)
    ensures AllJobs(cases, allowed) == Concat(Shares(cases, allowed))
    decreases |cases|
  {
    if cases != [] {
      var front := cases[..|cases| - 1];
      AllAreShares(front, allowed);
      assert Shares(cases, allowed)[..|cases| - 1] == Shares(front, allowed);
    }
  }

  /** The script runs the share of every test run, one share after the other, in the order of the scenario. */
  lemma {:induction false} ShareIsRun(cases: seq<Case>, allowed: (nat, Value) -> bool, i: nat)
    requires i < |cases|
    ensures var all, shares := AllJobs(cases, allowed), Shares(cases, allowed);
            && Start(shares, 0) == 0 && Start(shares, |cases|) == |all|
            && Start(shares, i) + |shares[i]| == Start(shares, i + 1) <= |all|
            && forall k | 0 <= k < |shares[i]| :: all[Start(shares, i) + k] == shares[i][k]
  {
    AllAreShares(cases, allowed);
    ConcatAt(Shares(cases, allowed), i);
  }

  /** A test run that is no design-space job is run once, as it is. */
  lemma {:induction false} PlainShare(c: Case, allowed: Value -> bool)
    requires !IsDse(c)
    ensures c.numNodes.Fixed? && Jobs(c, allowed) == [Job(0, None, c.numNodes.n, c.nodes, c.timeLimit)]
  {
  }

  function AllowedCombos(combos: seq<Value>, allowed: Value -> bool): set<nat> {
    set i: nat | i < |combos| && allowed(combos[i])
  }

  lemma {:induction false} UnrolledCount(c: Case, combos: seq<Value>, allowed: Value -> bool, n: nat)
    requires n <= |combos|
    ensures |Unrolled(c, combos, allowed, n)| == |AllowedCombos(combos[..n], allowed)|
    ensures forall k | 0 <= k < |Unrolled(c, combos, allowed, n)| ::
              var job := Unrolled(c, combos, allowed, n)[k];
              job.nodes == c.nodes && job.timeLimit == c.timeLimit && job.action.Some? && job.nnodes == NodesAfter(c, job.action.value)
    decreases n
  {
    if n > 0 {
      UnrolledCount(c, combos, allowed, n - 1);
      var before, after := AllowedCombos(combos[..n - 1], allowed), AllowedCombos(combos[..n], allowed);
      assert forall i: nat | i < n - 1 :: combos[..n][i] == combos[..n - 1][i];
      assert after == if allowed(combos[n - 1]) then before + {n - 1} else before;
    } else {
      assert AllowedCombos(combos[..n], allowed) == {};
    }
  }

  /** A design-space job is run once for each combination that its constraint check allows, in their order and under
      their numbers, each with the nodes and the time limit of the test run. */
  lemma {:induction false} DseShare(c: Case, allowed: Value -> bool)
    requires IsDse(c)
    ensures Numbered(AllCombinations(c), allowed, Jobs(c, allowed), |AllCombinations(c)|)
    ensures |Jobs(c, allowed)| == |AllowedCombos(AllCombinations(c), allowed)|
    ensures forall k | 0 <= k < |Jobs(c, allowed)| ::
              Jobs(c, allowed)[k].nodes == c.nodes && Jobs(c, allowed)[k].timeLimit == c.timeLimit
  {
    var combos := AllCombinations(c);
    UnrolledNumbers(c, combos, allowed, |combos|);
    UnrolledCount(c, combos, allowed, |combos|);
    assert combos[..|combos|] == combos;
  }

  // ----- Node counts -----

  /** The action chooses the node count. */
  predicate Chooses(action: Value, n: int) {
    action.Dict? && "NUM_NODES" in action.fields && action.fields["NUM_NODES"] == Int(n)
  }

  lemma {:induction false} NodesChosen(c: Case, k: nat)
    requires c.numNodes.Choice? && k < |AllCombinations(c)|
    ensures exists n :: n in c.numNodes.ns && Chooses(AllCombinations(c)[k], n)
  {
    var space, entries := ParamSpace(c), ParamSpaces.Entries(c.args, c.vars, NodeChoice(c));
    var value := NestedDicts.Leaf(List(SbatchModel.Ints(c.numNodes.ns)));
    NestedDicts.GetPut(ParamSpaces.Listed(c.args, c.vars), "NUM_NODES", value, "NUM_NODES");
    NestedDicts.GetFinds(entries, "NUM_NODES");
    var p :| 0 <= p < |entries| && entries[p] == NestedDicts.Item("NUM_NODES", value);
    assert space[p] == Param("NUM_NODES", SbatchModel.Ints(c.numNodes.ns));
    ParamSpaces.SpaceKeysDiffer(c.args, c.vars, NodeChoice(c));
    ActionAt(space, k, p);
    var d := Digits(Lists(space), k)[p];
    assert Chooses(AllCombinations(c)[k], c.numNodes.ns[d]);
  }

  /** The combination that a run of a design-space job stands for. */
  lemma {:induction false} ComboOf(c: Case, allowed: Value -> bool, k: nat) returns (i: nat)
    requires IsDse(c) && k < |Jobs(c, allowed)|
    ensures i < |AllCombinations(c)| && Jobs(c, allowed)[k].action == Some(AllCombinations(c)[i])
    ensures Jobs(c, allowed)[k].nnodes == NodesAfter(c, AllCombinations(c)[i])
  {
    i := UnrolledAt(c, AllCombinations(c), allowed, k);
  }

  lemma {:induction false} UnrolledAt(c: Case, combos: seq<Value>, allowed: Value -> bool, k: nat) returns (i: nat)
    requires k < |Unrolled(c, combos, allowed, |combos|)|
    ensures var job := Unrolled(c, combos, allowed, |combos|)[k];
            i < |combos| && job.action == Some(combos[i]) && job.nnodes == NodesAfter(c, combos[i])
  {
    UnrolledNumbers(c, combos, allowed, |combos|);
    UnrolledCount(c, combos, allowed, |combos|);
    var job := Unrolled(c, combos, allowed, |combos|)[k];
    assert Represents(combos, allowed, job, |combos|);
    i := job.step - 1;
  }

  /** When the number of nodes is explored, every run has the number of nodes that its combination chooses, one of those
      that were given. */
  lemma {:induction false} ChosenNodes(c: Case, allowed: Value -> bool, k: nat)
    requires c.numNodes.Choice? && k < |Jobs(c, allowed)|
    ensures var job := Jobs(c, allowed)[k];
            job.action.Some? && Chooses(job.action.value, job.nnodes) && job.nnodes in c.numNodes.ns
  {
    var i := ComboOf(c, allowed, k);
    NodesChosen(c, i);
  }

  /** Otherwise, when no parameter has that key, every run has the number of nodes of its test run. */
  lemma {:induction false} FixedNodes(c: Case, allowed: Value -> bool, k: nat)
    requires c.numNodes.Fixed? && k < |Jobs(c, allowed)|
    requires forall p | 0 <= p < |ParamSpace(c)| :: ParamSpace(c)[p].key != "NUM_NODES"
    ensures Jobs(c, allowed)[k].nnodes == c.numNodes.n
  {
    if IsDse(c) {
      var i := ComboOf(c, allowed, k);
      NoKeyInAction(ParamSpace(c), i, "NUM_NODES");
    }
  }

  lemma {:induction false} NoKeyInAction(space: seq<Param>, i: nat, key: string)
    requires i < |Actions(space)| && forall p | 0 <= p < |space| :: space[p].key != key
    ensures Actions(space)[i].Dict? && key !in Actions(space)[i].fields
  {
    ProductLength(Lists(space));
    ProductAt(Lists(space), i);
    ZipKeys(space, Product(Lists(space))[i], key);
  }

  lemma {:induction false} ZipKeys(space: seq<Param>, combination: seq<Value>, key: string)
    requires |combination| == |space| && forall p | 0 <= p < |space| :: space[p].key != key
    ensures key !in Zip(space, combination)
    decreases |space|
  {
    if space != [] {
      ZipKeys(space[..|space| - 1], combination[..|space| - 1], key);
    }
  }

  // ----- The time limit of the script -----

  predicate Limited(c: Case) {
    c.timeLimit.Some? && c.timeLimit.value != []
  }

  /** The test run has a share. */
  predicate Runs(cases: seq<Case>, allowed: (nat, Value) -> bool, i: nat)
    requires i < |cases|
  {
    Share(cases, allowed, i) != []
  }

  /** Every run has the nodes and the limit of its test run. */
  predicate Inherits(c: Case, job: Job) {
    job.nodes == c.nodes && job.timeLimit == c.timeLimit
  }

  lemma {:induction false} ShareInherits(cases: seq<Case>, allowed: (nat, Value) -> bool, i: nat, k: nat)
    requires i < |cases| && k < |Share(cases, allowed, i)|
    ensures Inherits(cases[i], Share(cases, allowed, i)[k])
  {
    if IsDse(cases[i]) {
      DseShare(cases[i], Column(allowed, i));
    } else {
      PlainShare(cases[i], Column(allowed, i));
    }
  }

  /** The test run that a run belongs to. */
  lemma {:induction false} OwnerOf(cases: seq<Case>, allowed: (nat, Value) -> bool, k: nat) returns (i: nat)
    requires k < |AllJobs(cases, allowed)|
    ensures i < |cases| && Runs(cases, allowed, i) && Inherits(cases[i], AllJobs(cases, allowed)[k])
  {
    var j;
    AllAreShares(cases, allowed);
    i, j := ConcatOwner(Shares(cases, allowed), k);
    ShareInherits(cases, allowed, i, j);
  }

  lemma {:induction false} RunOf(cases: seq<Case>, allowed: (nat, Value) -> bool, i: nat) returns (k: nat)
    requires i < |cases| && Runs(cases, allowed, i)
    ensures k < |AllJobs(cases, allowed)| && Inherits(cases[i], AllJobs(cases, allowed)[k])
  {
    var shares := Shares(cases, allowed);
    k := Start(shares, i);
    ShareIsRun(cases, allowed, i);
    ShareInherits(cases, allowed, i, 0);
    assert AllJobs(cases, allowed)[Start(shares, i) + 0] == shares[i][0];
  }

  function Seconds(c: Case): int {
    if Limited(c) && ParseTimeLimit(c.timeLimit.value).Ok? then ParseTimeLimit(c.timeLimit.value).value else 0
  }

  /** Each test run counts as often as it is run. */
  function TotalSeconds(cases: seq<Case>, allowed: (nat, Value) -> bool): int {
    if cases == [] then 0
    else
      var last := |cases| - 1;
      TotalSeconds(cases[..last], allowed) + |Jobs(cases[last], Column(allowed, last))| * Seconds(cases[last])
  }

  lemma {:induction false} SumConcat(a: seq<Job>, b: seq<Job>)
    ensures Sum(a + b) == Sum(a) + Sum(b)
    decreases |b|
  {
    if b == [] {
      assert a + b == a;
    } else {
      assert (a + b)[..|a + b| - 1] == a + b[..|b| - 1];
      SumConcat(a, b[..|b| - 1]);
    }
  }

  function SecondsOf(j: Job): int {
    if HasLimit(j) && Readable(j) then ParseTimeLimit(j.timeLimit.value).value else 0
  }

  lemma {:induction false} OneMoreTime(n: nat, v: int)
    ensures n * v + v == (n + 1) * v
  {
  }

  lemma {:induction false} SumSame(jobs: seq<Job>, v: int)
    requires forall k | 0 <= k < |jobs| :: SecondsOf(jobs[k]) == v
    ensures Sum(jobs) == |jobs| * v
    decreases |jobs|
  {
    if jobs != [] {
      var n := |jobs| - 1;
      SumSame(jobs[..n], v);
      assert Sum(jobs) == Sum(jobs[..n]) + SecondsOf(jobs[n]);
      OneMoreTime(n, v);
    }
  }

  lemma {:induction false} SumOfShares(cases: seq<Case>, allowed: (nat, Value) -> bool)
    ensures Sum(AllJobs(cases, allowed)) == TotalSeconds(cases, allowed)
    decreases |cases|
  {
    if cases != [] {
      var last := |cases| - 1;
      var share := Share(cases, allowed, last);
      SumOfShares(cases[..last], allowed);
      SumConcat(AllJobs(cases[..last], allowed), share);
      forall k | 0 <= k < |share| ensures SecondsOf(share[k]) == Seconds(cases[last]) {
        ShareInherits(cases, allowed, last, k);
      }
      SumSame(share, Seconds(cases[last]));
    }
  }

  /** Some test run that is run has a limit, or has none. */
  predicate SomeRun(cases: seq<Case>, allowed: (nat, Value) -> bool, limited: bool) {
    exists i | 0 <= i < |cases| :: Runs(cases, allowed, i) && Limited(cases[i]) == limited
  }

  lemma {:induction false} LimitsOfRuns(cases: seq<Case>, allowed: (nat, Value) -> bool, limited: bool)
    ensures (exists k | 0 <= k < |AllJobs(cases, allowed)| :: HasLimit(AllJobs(cases, allowed)[k]) == limited)
       <==> SomeRun(cases, allowed, limited)
  {
    var jobs := AllJobs(cases, allowed);
    if k :| 0 <= k < |jobs| && HasLimit(jobs[k]) == limited {
      var i := OwnerOf(cases, allowed, k);
      assert Runs(cases, allowed, i) && Limited(cases[i]) == limited;
    }
    if i :| 0 <= i < |cases| && Runs(cases, allowed, i) && Limited(cases[i]) == limited {
      var k := RunOf(cases, allowed, i);
      assert HasLimit(jobs[k]) == limited;
    }
  }

  /** The limit of the script in terms of the test runs that are run: none exactly when none of them has a limit; an
      error when only some have; and otherwise the sum of their limits, each as often as the test run is run,
      printed so that it reads as that sum exactly when the sum is not negative. */
  lemma {:induction false} ScenarioLimit(cases: seq<Case>, allowed: (nat, Value) -> bool)
    ensures var r := BuildTimeLimit(AllJobs(cases, allowed));
            && (r == Ok(None) <==> !SomeRun(cases, allowed, true))
            && (SomeRun(cases, allowed, true) && SomeRun(cases, allowed, false) ==> r.Raised?)
            && (r.Ok? && r.value.Some? ==>
                  && !SomeRun(cases, allowed, false)
                  && (ParseTimeLimit(r.value.value) == Ok(TotalSeconds(cases, allowed)) <==> TotalSeconds(cases, allowed) >= 0))
  {
    BuiltLimit(AllJobs(cases, allowed));
    LimitsOfRuns(cases, allowed, true);
    LimitsOfRuns(cases, allowed, false);
    SumOfShares(cases, allowed);
  }

  // ----- The nodes of the script -----

  lemma {:induction false} NodeListsOfRuns(jobs: seq<Job>, spec: string)
    ensures spec in NodeLists(jobs) <==> exists k | 0 <= k < |jobs| :: spec in jobs[k].nodes
    decreases |jobs|
  {
    if jobs != [] {
      var front, last := jobs[..|jobs| - 1], jobs[|jobs| - 1];
      NodeListsOfRuns(front, spec);
      assert jobs == front + [last];
      if k :| 0 <= k < |front| && spec in front[k].nodes {
        assert spec in jobs[k].nodes;
      }
      if spec in last.nodes {
        assert spec in jobs[|jobs| - 1].nodes;
      }
    }
  }

  /** The script raises exactly when resolving its node specifications does, or they name fewer nodes than some
      run needs; and otherwise it asks for the named nodes, or for as many as the largest run needs. */
  lemma {:induction false} NodesSpecRaisesIff(jobs: seq<Job>, resolved: Result<(int, seq<string>)>)
    ensures NodesSpec(jobs, resolved).Raised?
       <==> resolved.Raised? || (resolved.value.1 != [] && exists k | 0 <= k < |jobs| :: jobs[k].nnodes > |resolved.value.1|)
    ensures NodesSpec(jobs, resolved).Ok? ==>
              && NodesSpec(jobs, resolved).value.1 == resolved.value.1
              && (resolved.value.1 != [] ==> NodesSpec(jobs, resolved).value.0 == |resolved.value.1|)
  {
    MaxCovers(jobs);
  }

  /** The node specifications that the script resolves are those of the test runs that are run. */
  lemma {:induction false} ListedByRuns(cases: seq<Case>, allowed: (nat, Value) -> bool, spec: string)
    ensures spec in NodeLists(AllJobs(cases, allowed)) <==>
              exists i | 0 <= i < |cases| :: Runs(cases, allowed, i) && spec in cases[i].nodes
  {
    var jobs := AllJobs(cases, allowed);
    NodeListsOfRuns(jobs, spec);
    if k :| 0 <= k < |jobs| && spec in jobs[k].nodes {
      var i := OwnerOf(cases, allowed, k);
      assert Runs(cases, allowed, i) && spec in cases[i].nodes;
    }
    if i :| 0 <= i < |cases| && Runs(cases, allowed, i) && spec in cases[i].nodes {
      var k := RunOf(cases, allowed, i);
      assert spec in jobs[k].nodes;
    }
  }

  /** No run of any test run needs more nodes. */
  predicate Covers(cases: seq<Case>, allowed: (nat, Value) -> bool, n: int) {
    forall i, k | 0 <= i < |cases| && 0 <= k < |Share(cases, allowed, i)| :: Share(cases, allowed, i)[k].nnodes <= n
  }

  lemma {:induction false} CoversShares(cases: seq<Case>, allowed: (nat, Value) -> bool, n: int)
    requires forall k | 0 <= k < |AllJobs(cases, allowed)| :: AllJobs(cases, allowed)[k].nnodes <= n
    ensures Covers(cases, allowed, n)
  {
    var jobs := AllJobs(cases, allowed);
    forall i, k | 0 <= i < |cases| && 0 <= k < |Share(cases, allowed, i)| ensures Share(cases, allowed, i)[k].nnodes <= n {
      ShareIsRun(cases, allowed, i);
      assert jobs[Start(Shares(cases, allowed), i) + k] == Shares(cases, allowed)[i][k];
    }
  }

  /** In terms of the test runs that are run: the script asks for enough nodes for each of their runs; for named nodes
      exactly when one of them names nodes, and then for all that their specifications contributed. */
  lemma {:induction false} ScenarioNodes(cases: seq<Case>, allowed: (nat, Value) -> bool, sys: SlurmModel.System, c: SlurmSpecs.Call)
    requires SlurmSpecs.IsCall(c, sys, NodeLists(AllJobs(cases, allowed)), [])
    ensures var jobs := AllJobs(cases, allowed);
            var r := NodesSpec(jobs, SlurmSpecs.NodesOf(MaxNodes(jobs), NodeLists(jobs), [], c));
            r.Ok? ==>
              && Covers(cases, allowed, r.value.0)
              && (r.value.1 == [] <==> forall i | 0 <= i < |cases| && Runs(cases, allowed, i) :: cases[i].nodes == [])
              && (r.value.1 != [] ==> forall n :: n in r.value.1 <==> SlurmSpecs.Contributed(c.shares, n))
  {
    var jobs := AllJobs(cases, allowed);
    SpecCoversEveryRun(jobs, sys, c);
    SlurmSpecs.NodesBySpec(c, sys, MaxNodes(jobs), NodeLists(jobs), []);
    EmptyNodes(cases, allowed);
    var r := NodesSpec(jobs, SlurmSpecs.NodesOf(MaxNodes(jobs), NodeLists(jobs), [], c));
    if r.Ok? {
      CoversShares(cases, allowed, r.value.0);
    }
  }

  lemma {:induction false} EmptyNodes(cases: seq<Case>, allowed: (nat, Value) -> bool)
    ensures (forall k | 0 <= k < |AllJobs(cases, allowed)| :: AllJobs(cases, allowed)[k].nodes == [])
       <==> (forall i | 0 <= i < |cases| && Runs(cases, allowed, i) :: cases[i].nodes == [])
  {
    var jobs := AllJobs(cases, allowed);
    if k :| 0 <= k < |jobs| && jobs[k].nodes != [] {
      var i := OwnerOf(cases, allowed, k);
      assert Runs(cases, allowed, i) && cases[i].nodes != [];
    }
    if i :| 0 <= i < |cases| && Runs(cases, allowed, i) && cases[i].nodes != [] {
      var k := RunOf(cases, allowed, i);
      assert jobs[k].nodes != [];
    }
  }
}
