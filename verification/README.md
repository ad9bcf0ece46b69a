# Verified model of CloudAI's scheduling and allocation core

CloudAI runs scenarios of benchmark tests on a cluster.  This project models the parts of it that
keep state or do real computation, and proves what they guarantee.  Run `dafny verify dfyconfig.toml`.

**The job scheduler (`Runner*.dfy`).**  `BaseRunner` submits the tests of a scenario, polls them, starts
tests that wait for another one to be up (`start_post_init`) or done (`start_post_comp`), kills tests
that must end with another one (`end_post_comp`), and repeats tests for their iterations.
`RunnerModel` is the scheduler as a function of everything the cluster will ever answer, with a log of
every submission, poll, completion and kill.  `Runner` has the objects: the job list, the dict from test
runs to jobs (with the hash its keys had when they were stored), the iteration counters and the marks;
each method computes the function of the same name.  `RunnerSafety`, `RunnerOnce`, `RunnerCoverage`,
`RunnerDuties`, `RunnerStarts` and `RunnerRepeats` prove what holds of every run, whatever the cluster
answers: what may happen, and what must.  `RunnerTermination`, `RunnerTurns`, `RunnerDryStarts` and
`RunnerDryOnce` are about dry runs: they end, one turn acts on all tests at once, and exactly which tests
start and are repeated follows from the scenario.  `RunnerWitnesses` and `RunnerSteps` show which hypotheses are needed.

**Slurm (`NodeList*.dfy`, `Slurm*.dfy`).**  The compact node-list notation, printer and parser, where
`NodeListNotation` says what each form of text stands for; and the allocator, which overwrites node states
from `sinfo` and `squeue`, re-asserts its own holds, hands nodes of a group out and takes them back.
`SlurmModel` is the allocator on values, `SlurmAllocator` has the mutable nodes, the partitions' lists and
the set of held copies; `SlurmSpecs` and `SlurmCalls` are about node specifications and whole calls.

**Design-space exploration (`ParamSpaces`, `ActionValues`, `Grid`, `GymModel`, `Gym`, `SbatchModel`,
`ScenarioRuns`, `SingleSbatch`).**  What is explored, the grid of combinations, the agent that walks it, the
environment that runs a trial or answers from its trajectory, the driver loop, and the single-sbatch runner
that unrolls the same grid; `ScenarioRuns` says what that comes to for the test runs of a scenario.

**Smaller algorithms.**  Time limits (`TimeLimits`), nested dictionaries (`NestedDicts`, `FlatDicts`),
unique file names (`FileNames`) and grouping for reports (`Grouping`).

Findings that the proofs made precise:

- A `start_post_init` dependent that ends before its prerequisite is submitted again, with the same
  iteration (`RunnerWitnesses.DependentIsResubmitted`).  Two conditions on the scenario say exactly when
  that cannot happen.  Whatever the cluster answers, no test is submitted twice with one iteration if and
  only if no test waits for another one that can be started to be up (`RunnerRepeats.NeverRepeatsIff`).
  In a dry run without kills and with one start dependency per test, if and only if every test that
  starts lasts at least as many turns as the test it waits for is polled
  (`RunnerDryOnce.DryRunSubmitsOnceIff`).
- In a dry run a test that was started by the polling pass and has one iteration is gone before the next
  pass: a test waiting for it to be up never starts (`RunnerWitnesses.ThirdOfChainNeverStarts`);
  `RunnerDryStarts.DryRunStartsExactly` says exactly which tests start.
- Formatting and parsing node names re-pads exactly when one prefix comes with two widths
  (`NodeListExact.RoundTripIffOneWidth`): "n-1" and "n-02" come back as "n-01" and "n-02".
- An update that cannot read `squeue` ends before the holds are re-asserted: a node held by CloudAI that
  `sinfo` calls idle is then idle (`SlurmHolds.HoldCanFall`).  Over every history a held node is allocated
  exactly when no such cut-off update since the last complete one has last said otherwise of it
  (`SlurmHolds.HoldsStandForever`); the next complete update restores all holds
  (`SlurmHolds.UpdateRestoresHolds`).
- A negative total time limit prints as a different one that is not negative
  (`TimeLimits.RoundTripIffNotNegative`).
- Whether a test run is a design-space job is asked of the nested arguments, what it explores of the
  flattened ones.  With a dotted key, as in `{"a": {"b": [1]}, "a.b": 2}`, the only list is overwritten: the
  test run counts as exploration, the single-sbatch script runs nothing of it, and the agent would try the
  empty combination (`SbatchModel.DottedKeyHidesParameter`, with the exact condition in
  `SbatchModel.SameCombinationsIff`).  With plain keys this cannot happen (`SbatchModel.PlainCase`).
- A refused submission ends the whole exploration: `exit(1)` is not among the exceptions that the
  environment catches (`GymModel.SteppedExitsIff`).
- `deep_merge` is not associative; `NestedDicts.MergeAssociatesIff` says exactly when it is.

## Model

| member | source | states |
|---|---|---|
| RunnerSafety.RunIsLegal | src/cloudai/_core/base_runner.py:82-97 | for every scenario, every answer of the cluster and every prefix of the run: each log entry is justified by the ones before it, no test is listed twice, and list, iterations and marks are the ones the log describes |
| RunnerOnce.FirstStartAfterCompletion | src/cloudai/_core/base_runner.py:334-346 | a test whose only start dependency is start_post_comp is first submitted right after the dependency's last iteration completed or its terminated job did |
| RunnerOnce.FirstStartAfterInit | src/cloudai/_core/base_runner.py:145-179 | a test whose only start dependency is start_post_init is first submitted while the dependency is live and right after a poll reported it up |
| RunnerOnce.SubmittedAtMostOnceInOrder | src/cloudai/_core/base_runner.py:298-320 | when no test waits for a startable one to be up, each test is submitted with iterations first, first + 1, ... in order, each at most once, never reaching the limit |
| RunnerCoverage.NoStartIsMissed | src/cloudai/_core/base_runner.py:82-97 | at a normal end every root, every dependent of a finished test and every dependent of a test polled as up was submitted, and everything submitted finished |
| RunnerCoverage.EveryIterationRuns | src/cloudai/_core/base_runner.py:298-320 | with acyclic completion edges and a normal end, every test was submitted, and a test that was not killed with every one of its iterations |
| RunnerCoverage.AllStartedIffAcyclic | src/cloudai/_core/base_runner.py:181-195 | a run over completion edges that ends normally has submitted every test if and only if the start edges are acyclic |
| RunnerOnce.StartedIsStartable | src/cloudai/_core/base_runner.py:181-195 | whatever the cluster answers, only tests to which start edges lead from a root are ever submitted |
| RunnerRepeats.BringUp | src/cloudai/_core/base_runner.py:145-179 | for every test to which start edges lead there are answers of the cluster that bring it onto the list |
| RunnerRepeats.StartAgain | src/cloudai/_core/base_runner.py:168-179 | if a test waits for another startable one to be up, some answers of the cluster make it run an iteration twice |
| RunnerRepeats.NeverRepeatsIff | src/cloudai/_core/base_runner.py:82-97 | for every scenario: no answers of the cluster and no length of the run submit a test twice with one iteration, if and only if no test waits for another one that can be started to be up |
| RunnerTermination.RoundPays | src/cloudai/_core/base_runner.py:82-97 | in a dry run that can enter no cycle of start edges every turn of the loop lowers a measure that pays for iterations and for restarted dependents by at least the number of listed jobs |
| RunnerTermination.DryRunTerminates | src/cloudai/_core/base_runner.py:82-97 | a dry run that can enter no cycle of start edges ends within a bound, nothing raised and nothing left on the list, for any iteration counts |
| RunnerTermination.AcyclicEntersNoCycle | src/cloudai/_core/base_runner.py:82-97 | so in particular every dry run over acyclic start edges ends |
| RunnerTurns.RoundTurns | src/cloudai/_core/base_runner.py:82-97 | one turn of a dry run, job after job over two changing lists, acts on every test at once: who begins, goes on, repeats and leaves is decided by what is listed when the turn begins |
| RunnerDryStarts.OnlyReachedStart | src/cloudai/_core/base_runner.py:145-179 | however long a dry run is watched, cyclic or not, only tests reached along live start edges start |
| RunnerDryStarts.DryRunStartsExactly | src/cloudai/_core/base_runner.py:145-179 | exactly which tests a dry run starts, cyclic or not: those reached from the roots through completed tests and through tests that are still listed at the next poll |
| RunnerDryOnce.OutlastingRunsInOrder | src/cloudai/_core/base_runner.py:298-320 | while every reached test outlasts the one it waits for, every prefix of a dry run has submitted each test with its iterations in order, each once |
| RunnerDryOnce.DryRunSubmitsOnceIff | src/cloudai/_core/base_runner.py:168-179 | a dry run submits each test with each iteration at most once if and only if every reached test lasts as many turns as the one it waits for is polled; and then exactly the reached tests, with all their iterations |
| RunnerDryOnce.PlainRunEnds | src/cloudai/_core/base_runner.py:82-97 | with one start dependency per test and no kills every dry run ends |
| RunnerWitnesses.ThirdOfChainNeverStarts | src/cloudai/_core/base_runner.py:145-179 | a chain of three start_post_init tests with one iteration each never submits the third in a dry run |
| RunnerWitnesses.DependentIsResubmitted | src/cloudai/_core/base_runner.py:175-179 | three iterations against one: the dependent is gone after the first turn and submitted again with the same iteration in the second, while its prerequisite is live |
| RunnerWitnesses.EqualPairSubmitsOnce | src/cloudai/_core/base_runner.py:175-179 | one iteration each: the same two tests are submitted once |
| RunnerWitnesses.CycleRunsForever | src/cloudai/_core/base_runner.py:82-97 | a cycle of start edges keeps a dry run going for any number of turns |
| RunnerSteps.SteppedRunsStay | src/cloudai/_core/base_runner.py:313-320 | a test run with a step above 0 ends every run in the iteration it began with |
| RunnerSteps.UnsteppedRunMoves | src/cloudai/_core/base_runner.py:313-320 | without a step a dry run of two iterations advances the iteration |
| RunnerSteps.SteppedRunExitsIff | src/cloudai/_core/base_runner.py:99-115 | a single stepped test run ends the process if and only if its submission is refused |
| RunnerDuties.HandleDependenciesMarks | src/cloudai/_core/base_runner.py:348-366 | unless a start raises, handling the dependencies of a completed test leaves exactly those listed jobs marked that were or that must end with it, the ones just started included |
| RunnerDuties.CompletionKills | src/cloudai/_core/base_runner.py:348-366 | in every run, when a test has completed for good, each live test that must end with it is killed before the cluster is asked anything else, or an exception has ended the run before it could ask |
| RunnerStarts.DutiesAreDone | src/cloudai/_core/base_runner.py:145-179 | in every run, a poll that says up and a last completion are followed, before anything else is asked, by the start of each dependent that is not live; any other completion at once by the next iteration; a check that says done by the status question and the completion; unless an exception has ended the run before it could ask |
| RunnerStarts.RootsStart | src/cloudai/_core/base_runner.py:82-97 | every run submits each root with its first iteration before it asks anything, unless an exception ends it there |
| RunnerDuties.FailureEndsRun | src/cloudai/_core/base_runner.py:254-266 | where statuses are checked, a failed job is the last one that is asked about: every job listed after its completion is cancelled and the run is over, unless handling the completion raised |
| RunnerDuties.RunStopsOnlyWhen | src/cloudai/_core/base_runner.py:99-118 | a run that is cut off was stopped by a failed job, after which every listed job was cancelled, or by an answer that was not yes, and exits exactly when that refused a submission |
| RunnerDuties.LogAgrees | src/cloudai/_core/base_runner.py:231-275 | every submission, poll, check and status in the log is what the cluster had answered |
| RunnerDuties.TurnAsksEveryone | src/cloudai/_core/base_runner.py:82-97 | each turn polls every job listed when it begins once and then checks every job listed after the polls once, in the order of the list |
| Runner.BaseRunner.InMapIsLive | src/cloudai/_core/base_runner.py:175-179 | a test run is in the dict exactly when a listed job is its own, in spite of the changing hash |
| Runner.BaseRunner.SubmitTest | src/cloudai/_core/base_runner.py:99-118 | submitting appends one new job to list and dict alike, or aborts the run |
| Runner.BaseRunner.SubmitRootTests | src/cloudai/_core/base_runner.py:181-195 | the tests without a start dependency are submitted in scenario order |
| Runner.BaseRunner.ScheduleDependents | src/cloudai/_core/base_runner.py:168-179 | dependents that are not live are submitted in scenario order |
| Runner.BaseRunner.CheckStartPostInitDependencies | src/cloudai/_core/base_runner.py:145-166 | polls the jobs that were in the dict when it began, while submissions extend it |
| Runner.BaseRunner.DelayedKillJob | src/cloudai/_core/base_runner.py:354-366 | marks the job as terminated by a dependency, then kills it |
| Runner.BaseRunner.KillDependents | src/cloudai/_core/base_runner.py:348-352 | marks and kills exactly the live jobs that must end with the completed one |
| Runner.BaseRunner.HandleDependencies | src/cloudai/_core/base_runner.py:334-352 | starts first, then kills |
| Runner.BaseRunner.Remove | src/cloudai/_core/base_runner.py:310-311 | takes exactly the completed job out of list and dict, although equality of jobs ignores identity and all ids may be 0 |
| Runner.BaseRunner.AtItsPlace | src/cloudai/_core/base_job.py:23-29 | the first job equal to a listed one is that one |
| Runner.BaseRunner.HandleJobCompletion | src/cloudai/_core/base_runner.py:298-320 | a completed job leaves both structures and is repeated, or its dependencies are handled, or neither for a stepped run |
| Runner.BaseRunner.Shutdown | src/cloudai/_core/base_runner.py:73-80 | every listed job is killed and the flag set |
| Runner.BaseRunner.SettleJob | src/cloudai/_core/base_runner.py:241-273 | the status question, the completion and the shutdown on failure, in this order |
| Runner.BaseRunner.MonitorJobs | src/cloudai/_core/base_runner.py:231-275 | checks the jobs listed when it began; completions and submissions change the list meanwhile |
| Runner.BaseRunner.Run | src/cloudai/_core/base_runner.py:82-97 | the whole run computes the model's run, and after each turn list and dict hold the same jobs under the same test runs |
| Runner.BaseRunner.RunDry | src/cloudai/_core/base_runner.py:82-97 | the loop as it stands terminates in a dry run that can enter no cycle of start edges, with list and dict empty |
| NodeList.AddComponent | src/cloudai/systems/slurm/slurm_system.py:58-74 | the loop body of the parser appends the names of one component, or raises |
| NodeList.ParseNodeList | src/cloudai/systems/slurm/slurm_system.py:43-76 | the parser's loops compute the meaning of a node list |
| NodeListNotation.PlainNameParses | src/cloudai/systems/slurm/slurm_system.py:60-61 | a name without brackets, commas and whitespace around it stands for itself |
| NodeListNotation.BracketedListParses | src/cloudai/systems/slurm/slurm_system.py:63-74 | a header with a bracketed list stands for the header with each entry in turn, numbers as written and ranges padded to the width of their end |
| NodeListNotation.MixedListParses | src/cloudai/systems/slurm/slurm_system.py:63-74 | "n[1-2,07]" stands for n1, n2 and n07 |
| NodeListNotation.ConcatenationParses | src/cloudai/systems/slurm/slurm_system.py:58-59 | two lists with a comma and any whitespace between them stand for the names of the first and then of the second, or raise as the first that raises, provided that no bracket closes over the comma |
| NodeListNotation.SurroundingSpaceIgnored | src/cloudai/systems/slurm/slurm_system.py:53-56 | whitespace around a list changes nothing, and whitespace alone is the empty list |
| NodeListNotation.DashedRaisesIff | src/cloudai/systems/slurm/slurm_system.py:67-72 | a range with one dash raises if and only if one of its ends is no integer |
| NodeListNotation.TwoDashesRaise | src/cloudai/systems/slurm/slurm_system.py:68 | a range with two dashes raises |
| NodeListNotation.TwoBracketsRaise | src/cloudai/systems/slurm/slurm_system.py:63 | a component with two opening brackets raises |
| NodeList.FormatRange | src/cloudai/systems/slurm/slurm_system.py:402-428 | the start/end loop prints the runs of the sorted numbers |
| NodeList.GroupNames | src/cloudai/systems/slurm/slurm_system.py:369-400 | names are grouped by prefix in the order of first appearance, with the largest width |
| NodeList.AddPartKeeps | src/cloudai/systems/slurm/slurm_system.py:385-400 | adding one name to the groups is grouping one name more |
| NodeListExact.FormatNodeList | src/cloudai/systems/slurm/slurm_system.py:369-443 | the printer raises exactly on a name without a numeric part; on plain names its text is read back as the canonical list, and as the same multiset of names exactly when each prefix has one width |
| NodeListTrip.ParseFormat | src/cloudai/systems/slurm/slurm_system.py:369-443 | parsing what was printed gives the canonical list: prefixes in first-appearance order, numbers ascending, each padded to its prefix's width |
| NodeListExact.RoundTripIffOneWidth | src/cloudai/systems/slurm/slurm_system.py:43-76 | printing and parsing gives back the same multiset of names, zeroes included, if and only if each prefix has one digit width |
| NodeListMixed.MixedWidthsArePadded | src/cloudai/systems/slurm/slurm_system.py:402-428 | two widths under one prefix: "n-1", "n-02" come back as "n-01", "n-02" |
| NodeListRuns.PrintedRangesAreBest | src/cloudai/systems/slurm/slurm_system.py:402-428 | for numbers without repetitions, in any order: the printed ranges are proper, ascending, separated by gaps, cover exactly the numbers, and no shorter list of ranges does |
| NodeListRuns.RunsAreMaximal | src/cloudai/systems/slurm/slurm_system.py:402-428 | the printed ranges are ascending, separated by gaps, and cover exactly the numbers |
| NodeListRuns.RunsAreFewest | src/cloudai/systems/slurm/slurm_system.py:402-428 | no shorter list of ranges covers the same numbers |
| SlurmUpdates.AbsorbWrites | src/cloudai/systems/slurm/slurm_system.py:216-232 | a pass over entries moves and removes no node, keeps names unique, and leaves each node as the last entry about it says |
| SlurmUpdates.AbsorbNames | src/cloudai/systems/slurm/slurm_system.py:216-232 | exactly the listed names are added, and only by an inserting pass |
| SlurmUpdates.UpdateIsLastWriterWins | src/cloudai/systems/slurm/slurm_system.py:171-182 | after an update each node has the state its last writer in sinfo, squeue, holds gave it; new nodes come from sinfo only, once |
| SlurmUpdates.UpdateTwice | src/cloudai/systems/slurm/slurm_system.py:171-182 | repeating an update on the same inputs changes nothing |
| SlurmUpdates.UpdateKeepsWellFormed | src/cloudai/systems/slurm/slurm_system.py:171-182 | also an update cut off half-way keeps names unique and holds unchanged |
| SlurmUpdates.CutOffUpdate | src/cloudai/systems/slurm/slurm_system.py:171-182 | an update raises exactly when a command cannot be read, with the error of the first: without sinfo nothing has changed, without squeue exactly what sinfo says is written |
| SlurmUpdates.OwnValuesDoNothing | src/cloudai/systems/slurm/slurm_system.py:601-603 | writing back values that the nodes have at present changes nothing, so a hold that shared its object with the partition could restore nothing: why the holds are copies |
| SlurmHolds.UpdateRestoresHolds | src/cloudai/systems/slurm/slurm_system.py:171-182 | every complete update makes every held node allocated, from any state and for any outputs |
| SlurmHolds.HalfUpdate | src/cloudai/systems/slurm/slurm_system.py:171-182 | from any state, after an update that could not read squeue a held node is allocated if and only if its last sinfo entry says so, or it has none and was allocated before |
| SlurmHolds.HoldCanFall | src/cloudai/systems/slurm/slurm_system.py:171-182 | one held node, sinfo says idle, squeue unreadable: the hold does not stand afterwards |
| SlurmHolds.PoolIsEligible | src/cloudai/systems/slurm/slurm_system.py:513-545 | each state's list holds exactly the group's names in that state that are not excluded, once each |
| SlurmHolds.QueueIsRanked | src/cloudai/systems/slurm/slurm_system.py:530-535 | the lists together offer each such name once, idle before completing before allocated before reserved |
| SlurmHolds.PickIsDeserved | src/cloudai/systems/slurm/slurm_system.py:547-599 | max_avail takes exactly all idle, completing and reserved names; a count is met exactly or not at all, and never by a worse state while a better one is left |
| SlurmHolds.ServeGrants | src/cloudai/systems/slurm/slurm_system.py:445-494 | exactly the nodes answered become allocated and held, nothing else changes, and without an answer nothing at all |
| SlurmHolds.ReleaseIsByName | src/cloudai/systems/slurm/slurm_system.py:777-782 | the end of a job ends exactly the holds on the listed names, in every partition, and touches no state |
| SlurmHolds.ReleaseReadsList | src/cloudai/systems/slurm/slurm_system.py:777-782 | of a line with a node list, a bar and whitespace the names of the node list are released; when the list cannot be read the release raises and changes nothing |
| SlurmHolds.HoldsStandForever | src/cloudai/systems/slurm/slurm_system.py:171-182 | over every history names stay unique, every hold is on a node of its partition, and a held node is allocated if and only if the sinfo outputs of the updates cut off since the last complete one do not last say otherwise |
| SlurmHolds.AllStandWhenRead | src/cloudai/systems/slurm/slurm_system.py:601-603 | after every operation of a history whose update was complete, every held node is allocated |
| SlurmHolds.RequestIsDeserved | src/cloudai/systems/slurm/slurm_system.py:445-494 | whatever a request hands out satisfies the choice's rules in the states its own update saw |
| SlurmHolds.RequestIsAnswered | src/cloudai/systems/slurm/slurm_system.py:445-494 | a request that does not raise answers, with nodes or with none, exactly as the rules of the choice demand in the states its own update saw |
| SlurmHolds.RequestRaisesIff | src/cloudai/systems/slurm/slurm_system.py:472-511 | a request raises if and only if its update does, a node list of some group cannot be read, or the partition or the group does not exist |
| SlurmModel.MembersAreMentioned | src/cloudai/systems/slurm/slurm_system.py:129-143 | the members of a group are the names that some of its node lists mentions |
| SlurmHolds.HeldNodesComeLast | src/cloudai/systems/slurm/slurm_system.py:576-594 | max_avail never hands out a held node; a count does so only together with every idle and completing node of the group that is not excluded |
| SlurmHolds.HandedOutIsHeld | src/cloudai/systems/slurm/slurm_system.py:601-603 | what a request hands out is held afterwards |
| SlurmHolds.HoldLasts | src/cloudai/systems/slurm/slurm_system.py:777-782 | only the end of a job that lists the name ends a hold |
| SlurmHolds.HandedOutOnce | src/cloudai/systems/slurm/slurm_system.py:445-494 | over every history, a node handed out is not handed out by a later max_avail request for the partition until a job's end has listed its name |
| SlurmHolds.ReleasedFollowsCluster | src/cloudai/systems/slurm/slurm_system.py:777-782 | after its release a node has the state sinfo and squeue give it from the next complete update on |
| SlurmHolds.FailureLeavesNoTrace | src/cloudai/systems/slurm/slurm_system.py:484-494 | a request that raises or hands out nothing leaves exactly what its update left |
| SlurmSpecs.AllContributed | src/cloudai/systems/slurm/slurm_system.py:715-731 | the names collected are exactly those that some specification contributed, and the loop raises exactly when a specification that is reached raises |
| SlurmSpecs.DedupKeeps | src/cloudai/systems/slurm/slurm_system.py:733-735 | removing duplicates keeps every name, once |
| SlurmSpecs.ExcludedIsMentioned | src/cloudai/systems/slurm/slurm_system.py:712-713 | the exclusions can be expanded if and only if each can be read, and then they are exactly the names that some of them mentions |
| SlurmSpecs.CountIsRead | src/cloudai/systems/slurm/slurm_system.py:722 | a count in digits asks for that many nodes, and max_avail is the only word |
| SlurmSpecs.GroupSpecAsks | src/cloudai/systems/slurm/slurm_system.py:717-726 | "partition:group:4" asks that group of that partition for four nodes, with the exclusions, and contributes the answer |
| SlurmSpecs.OtherFieldsRaise | src/cloudai/systems/slurm/slurm_system.py:717-720 | a specification with any other number of fields raises |
| SlurmSpecs.NodeListContributes | src/cloudai/systems/slurm/slurm_system.py:727-731 | a node list contributes the names it mentions, in order and without the excluded ones, or raises when it cannot be read, and asks the allocator for nothing |
| SlurmSpecs.NodesBySpec | src/cloudai/systems/slurm/slurm_system.py:737-772 | without specifications the count comes back without names; with them the call raises or returns a non-empty, sorted, duplicate-free list of the stated length, made of exactly what the specifications contributed and free of every name that an exclusion mentions |
| SlurmSpecs.NodesBySpecRaises | src/cloudai/systems/slurm/slurm_system.py:756-771 | the call raises if and only if an excluded list cannot be read, a specification that is reached raises, or there are specifications and none contributes a name |
| SlurmSpecs.ListsResolve | src/cloudai/systems/slurm/slurm_system.py:737-772 | with node lists only, the call raises if and only if a list or an exclusion cannot be read or every mentioned name is excluded, and otherwise returns exactly the names mentioned and not excluded |
| SlurmCalls.CallContinuesHistory | src/cloudai/systems/slurm/slurm_system.py:715-731 | a call on the last state of a history leaves the last state of a longer one, extended by requests only; so what holds of histories holds across calls |
| SlurmCalls.MaxAvailSpecsAreDisjoint | src/cloudai/systems/slurm/slurm_system.py:715-731 | inside one call a max_avail specification contributes no node that an earlier specification for the same partition was given |
| SlurmAllocator.SlurmPartition.Overwrite | src/cloudai/systems/slurm/slurm_system.py:221-232 | the inner loop overwrites the first node of that name in place, or appends the object itself |
| SlurmAllocator.SlurmPartition.MarkAllocated | src/cloudai/systems/slurm/slurm_system.py:601-602 | exactly the chosen objects become allocated |
| SlurmAllocator.SlurmSystem.UpdateNodesStateAndUser | src/cloudai/systems/slurm/slurm_system.py:216-232 | the pass over objects, which may overwrite objects it has inserted, equals the pass over their first values |
| SlurmAllocator.SlurmSystem.Update | src/cloudai/systems/slurm/slurm_system.py:171-182 | the three passes, the third in whatever order the set is visited; no held object is shared with a partition |
| SlurmAllocator.SlurmSystem.GroupNodes | src/cloudai/systems/slurm/slurm_system.py:126-145 | a group's nodes are the partition's own objects, or new ones in an unknown state, one per name in some order |
| SlurmAllocator.SlurmSystem.GroupByState | src/cloudai/systems/slurm/slurm_system.py:513-545 | the lists per state hold the partition's own objects |
| SlurmAllocator.ChooseNodes | src/cloudai/systems/slurm/slurm_system.py:567-599 | popping the lists state by state chooses a prefix of their concatenation |
| SlurmAllocator.AddCopies | src/cloudai/systems/slurm/slurm_system.py:603 | new copies join the set of holds, equal ones are not repeated, none is an object of a partition |
| SlurmAllocator.SlurmSystem.Serve | src/cloudai/systems/slurm/slurm_system.py:496-605 | validation, grouping, choice, marking and holding compute the model's answer and state |
| SlurmAllocator.SlurmSystem.GetAvailableNodesFromGroup | src/cloudai/systems/slurm/slurm_system.py:445-494 | the request as a whole is one step of the model |
| SlurmAllocator.SlurmSystem.CompleteJob | src/cloudai/systems/slurm/slurm_system.py:777-782 | the release is one step of the model |
| SlurmAllocator.SlurmSystem.ParseSpec | src/cloudai/systems/slurm/slurm_system.py:715-731 | one turn of the loop over specifications |
| SlurmAllocator.SlurmSystem.ParseNodes | src/cloudai/systems/slurm/slurm_system.py:688-735 | the loop over specifications, stopped by the first one that raises |
| SlurmAllocator.SlurmSystem.GetNodesBySpec | src/cloudai/systems/slurm/slurm_system.py:737-772 | the count and the sorted names, or the error, of the model |
| ActionValues.MatchIsEquality | src/cloudai/configurator/cloudai_gym.py:251-275 | two nested values match exactly when they are the same value, so matching is an equivalence |
| Grid.ProductAt | src/cloudai/configurator/grid_search.py:50-62 | there are as many combinations as the product of the list lengths, and number i is selected by the mixed-radix digits of i, last key fastest |
| Grid.NumberOfDigits | src/cloudai/configurator/grid_search.py:50-62 | numbering the digits of a number gives the number back |
| Grid.DigitsOfNumber | src/cloudai/configurator/grid_search.py:50-62 | and the digits of a numbered choice are that choice |
| Grid.ProductIsEveryChoiceOnce | src/cloudai/configurator/grid_search.py:50-62 | every choice of one element per list is a combination, and only one when no list repeats an element |
| Grid.ActionAt | src/cloudai/configurator/grid_search.py:64-72 | action i gives each key the element its digit selects |
| Grid.ActionsDiffer | src/cloudai/configurator/grid_search.py:64-72 | different combinations are different actions |
| Grid.GridSearchAgent.Configure | src/cloudai/configurator/grid_search.py:50-62 | the combinations and their number |
| Grid.GridSearchAgent.SelectAction | src/cloudai/configurator/grid_search.py:74-85 | the next step number and its action, or an index error past the end |
| Grid.GridSearchAgent.GetAllCombinations | src/cloudai/configurator/grid_search.py:64-72 | all actions in the order in which they are selected |
| GymModel.CallEffect | src/cloudai/configurator/cloudai_gym.py:107-167 | a stepped call stays in its bucket, starts the runner only for an unlogged, allowed action, and then adds exactly its entry |
| GymModel.LoggedActionIsNotRun | src/cloudai/configurator/cloudai_gym.py:124-130 | a logged action is answered from the log, whatever the world would say, and nothing runs |
| GymModel.NewActionIsAnswered | src/cloudai/configurator/cloudai_gym.py:122-167 | the answer to an action that is not logged, in all five cases: the exception of applying it, the reply [-1.0] with the failure reward that ends the episode when it breaks the constraints, the exceptions of output path, submission and metrics, and else the observation and its reward |
| GymModel.DoneIff | src/cloudai/configurator/cloudai_gym.py:132-134 | a call ends the episode if and only if its action is new and breaks the constraints, and then nothing runs and nothing is logged |
| GymModel.TrialAfterCall | src/cloudai/configurator/cloudai_gym.py:148-153 | afterwards the test run has the applied parameters, or those of the beginning when a run left no output directory, always with the step of the call |
| GymModel.PlayStaysGood | src/cloudai/configurator/cloudai_gym.py:222-249 | over every sequence of stepped calls there is one bucket and no two entries match |
| GymModel.RunsAreTheLog | src/cloudai/configurator/cloudai_gym.py:107-167 | while metrics compute, the runner is started exactly for the logged actions in order, no action twice |
| GymModel.RunsAreCounted | src/cloudai/configurator/cloudai_gym.py:107-167 | in general it is started once per entry and once per call that raised after its run |
| GymModel.RepeatedActionsRepeatResults | src/cloudai/configurator/cloudai_gym.py:124-130 | once an action is logged, every later call with it gets the first observation and reward without a run |
| GymModel.UnsteppedCallMoves | src/cloudai/configurator/cloudai_gym.py:237-242 | with step 0 the entry can land under another iteration than the one searched |
| GymModel.SteppedExitsIff | src/cloudai/configurator/cloudai_gym.py:143-146 | a stepped trial ends the process if and only if its submission is refused; every other exception is caught |
| Gym.CloudAIGymEnv.GetCachedTrajectoryResult | src/cloudai/configurator/cloudai_gym.py:244-249 | the first matching entry; asking creates the bucket |
| Gym.CloudAIGymEnv.WriteTrajectory | src/cloudai/configurator/cloudai_gym.py:222-235 | the entry is appended under the current iteration |
| Gym.CloudAIGymEnv.RunTrial | src/cloudai/configurator/cloudai_gym.py:136-147 | the scheduler itself on this trial alone decides the iteration afterwards and whether the process exits |
| Gym.CloudAIGymEnv.Step | src/cloudai/configurator/cloudai_gym.py:107-167 | one step computes the model's reply, trial, trajectory and runs |
| Gym.HandleDseJob | src/cloudai/cli/handlers.py:160-170 | every combination is tried exactly once, in order, under step i + 1, and the list is never indexed out of range; the first exception, and only an exception, ends the loop early and comes out |
| SbatchModel.TotalIffSummable | src/cloudai/systems/slurm/single_sbatch_runner.py:71-79 | the total exists exactly when every limit reads and no running total leaves the range of timedelta |
| SbatchModel.BuiltLimit | src/cloudai/systems/slurm/single_sbatch_runner.py:71-86 | None exactly when no run has a limit, an error on a mix, and otherwise a limit that reads as the sum exactly when the sum is not negative |
| SbatchModel.SpecCoversEveryRun | src/cloudai/systems/slurm/single_sbatch_runner.py:88-105 | the node count covers every run; it is the number of named nodes when there are any, sorted and each once |
| ScenarioRuns.ShareIsRun | src/cloudai/systems/slurm/single_sbatch_runner.py:173-181 | the script runs the share of every test run, one after the other in scenario order, and nothing else |
| ScenarioRuns.PlainShare | src/cloudai/systems/slurm/single_sbatch_runner.py:179-181 | the share of a test run that is no design-space job is that test run, once |
| ScenarioRuns.DseShare | src/cloudai/systems/slurm/single_sbatch_runner.py:127-134 | the share of a design-space job is one run for each allowed combination, in order and numbered, with the specifications and the time limit of the test run |
| ScenarioRuns.ChosenNodes | src/cloudai/_core/test_scenario.py:193-194 | where the number of nodes is explored, each run has the number that its combination chooses |
| ScenarioRuns.FixedNodes | src/cloudai/_core/test_scenario.py:177-194 | otherwise each run has the number of nodes of its test run |
| ScenarioRuns.ScenarioLimit | src/cloudai/systems/slurm/single_sbatch_runner.py:71-86 | over the test runs of the scenario: no limit exactly when no test run that is run has one, an error exactly when only some have, and otherwise a limit that reads as the sum, each test run counted as often as it is run, exactly when the sum is not negative |
| ScenarioRuns.ListedByRuns | src/cloudai/systems/slurm/single_sbatch_runner.py:91-93 | the node specifications that the script resolves are exactly those of the test runs that are run |
| ScenarioRuns.ScenarioNodes | src/cloudai/systems/slurm/single_sbatch_runner.py:88-105 | over the test runs of the scenario: the node count covers every run, and there are named nodes exactly when a test run that is run names some, and then all they contributed |
| ScenarioRuns.NodesSpecRaisesIff | src/cloudai/systems/slurm/single_sbatch_runner.py:95-105 | the script raises if and only if resolving raises or fewer nodes are named than the largest run needs; an equal number is enough |
| SbatchModel.UnrolledNumbers | src/cloudai/systems/slurm/single_sbatch_runner.py:127-134 | the unrolled runs are the allowed combinations in ascending order, each under its number in the grid |
| SbatchModel.LoggedNumbers | src/cloudai/systems/slurm/single_sbatch_runner.py:208-229 | for one test run: combination i is logged under step i + 1 for every i, or the first exception comes out |
| SbatchModel.LoggedAllNumbers | src/cloudai/systems/slurm/single_sbatch_runner.py:202-229 | handle_dse logs every combination of every design-space job under its number, and nothing of other test runs, if and only if no metric raises |
| ParamSpaces.HasListIffLeaf | src/cloudai/models/workload.py:133-141 | the recursive search finds a list exactly when some leaf is one |
| ParamSpaces.NothingToExploreIff | src/cloudai/_core/test_scenario.py:145-156 | a design-space job has nothing to explore if and only if every list among its arguments comes before a leaf with the same joined key that is no list; and whatever has something to explore is a design-space job |
| ParamSpaces.PlainKeysHideNothing | src/cloudai/_core/test_scenario.py:145-156 | with plain keys a test run is a design-space job exactly when it has something to explore |
| ParamSpaces.SpaceKeysDiffer | src/cloudai/_core/test_scenario.py:145-156 | no key of a parameter space occurs twice |
| ParamSpaces.ParametersAre | src/cloudai/_core/test_scenario.py:145-156 | which key has which values in the parameter space, for every key: the node counts, else the list of the environment variable with the prefixed name, else the list of the last leaf of the arguments with that joined key; and no other |
| ParamSpaces.ListAtPath | src/cloudai/_core/test_scenario.py:145-156 | with plain keys a joined key is a parameter with given values exactly when its path leads to that list |
| ParamSpaces.SpaceInOrder | src/cloudai/_core/test_scenario.py:145-156 | the order that numbers the combinations: the lists of the arguments as they stand, then those of the environment, then the node counts |
| SbatchModel.SameCombinationsIff | src/cloudai/_core/test_scenario.py:159-175 | for a design-space job the script enumerates the agent's combinations if and only if some parameter is not hidden; otherwise the agent has one empty combination and the script runs nothing |
| SbatchModel.PlainCase | src/cloudai/_core/test_scenario.py:159-175 | with plain keys the script always enumerates the agent's combinations, and a test run with nothing to explore is run once as it is |
| SbatchModel.DottedKeyHidesParameter | src/cloudai/_core/test_scenario.py:145-175 | one dotted key hides the only list: the test run counts as exploration and the script runs nothing of it |
| SbatchModel.AgentLogsWhatScriptUnrolls | src/cloudai/systems/slurm/single_sbatch_runner.py:127-134 | given the same constraint check and no exception, the agent logs exactly the (step, action) pairs that the script unrolls |
| SingleSbatch.SingleSbatchRunner.UnrollDse | src/cloudai/systems/slurm/single_sbatch_runner.py:127-134 | the loop yields the model's unrolled runs |
| SingleSbatch.SingleSbatchRunner.AllTrs | src/cloudai/systems/slurm/single_sbatch_runner.py:173-181 | the runs of all test runs in scenario order |
| SingleSbatch.SingleSbatchRunner.BuildTimeLimit | src/cloudai/systems/slurm/single_sbatch_runner.py:71-86 | the counting and summing loop computes the model's limit |
| SingleSbatch.SingleSbatchRunner.ExtractSbatchNodesSpec | src/cloudai/systems/slurm/single_sbatch_runner.py:88-105 | the largest count and all node lists, resolved by the allocator |
| SingleSbatch.SingleSbatchRunner.LogCombinations | src/cloudai/systems/slurm/single_sbatch_runner.py:208-229 | the loop over the combinations of one test run |
| SingleSbatch.SingleSbatchRunner.HandleDse | src/cloudai/systems/slurm/single_sbatch_runner.py:202-229 | the loop over the test runs, which passes over those that are no design-space jobs |
| TimeLimits.ParseOfFormat | src/cloudai/util/utils.py:21-67 | what parsing makes of any printed duration; a negative one loses its days |
| TimeLimits.RoundTripIffNotNegative | src/cloudai/util/utils.py:60-67 | parsing a printed duration gives it back if and only if it is not negative |
| TimeLimits.AbbreviatedMeans | src/cloudai/util/utils.py:39-51 | digits and a unit letter of either case are that many seconds, minutes, hours, days or weeks: "30m", "2h", "3d" |
| TimeLimits.FieldsMean | src/cloudai/util/utils.py:27-32 | two fields are hours and minutes, three are hours, minutes and seconds: "1:30" |
| TimeLimits.DaysMean | src/cloudai/util/utils.py:54-57 | the number before the first dash is days, the three fields after it are added, with their signs |
| Strings.PyIntReads | src/cloudai/util/utils.py:28 | a field may have a sign, and single underscores between its digits |
| Strings.PyIntRefuses | src/cloudai/util/utils.py:28 | a text without sign and surrounding space that is no such numeral is no integer |
| TimeLimits.ColonsRaise | src/cloudai/util/utils.py:27-36 | without unit and dash a limit raises when it has any other number of fields or one of them is no integer |
| TimeLimits.NegativeLimit | src/cloudai/util/utils.py:54-57 | a second dash makes the hours negative, so a limit can denote a negative duration |
| NestedDicts.DeepMerge | src/cloudai/util/__init__.py:93-103 | the recursive loop computes the merge and leaves its arguments alone |
| NestedDicts.MergeAtPath | src/cloudai/util/__init__.py:93-103 | path by path: what b has wins, what a has stays unless b has a value on the way, and nothing else appears |
| NestedDicts.MergeOrder | src/cloudai/util/__init__.py:93-103 | the keys of a keep their places, the new ones follow in the order of b |
| NestedDicts.SameIffSamePaths | src/cloudai/util/__init__.py:93-103 | two dicts are equal exactly when they have the same kind at every path |
| NestedDicts.MergeSelf | src/cloudai/util/__init__.py:93-103 | merging a dict with itself gives an equal dict |
| NestedDicts.MergeAgain | src/cloudai/util/__init__.py:93-103 | merging the same dict in again changes nothing |
| NestedDicts.MergeAssociatesIff | src/cloudai/util/__init__.py:93-103 | the two ways to merge three dicts agree if and only if nothing that b removes by a value resurfaces under a dict of c |
| NestedDicts.MergeAssociates | src/cloudai/util/__init__.py:93-103 | so merging is associative when no path is a dict in one argument and another value in the next |
| NestedDicts.MergeNotAssociative | src/cloudai/util/__init__.py:93-103 | three small dicts for which the two ways differ |
| FlatDicts.FlattenDict | src/cloudai/util/__init__.py:106-125 | the recursive loop computes the flat dict |
| FlatDicts.FlattenAtPath | src/cloudai/util/__init__.py:106-125 | with plain keys the joined key of a path maps to a value exactly when the path leads to it |
| FlatDicts.FlattenLosesNothing | src/cloudai/util/__init__.py:106-125 | without empty inner dicts, empty keys and separators in keys, flat dicts are equal if and only if the nested ones are |
| FlatDicts.GetLeaves | src/cloudai/util/__init__.py:106-125 | of the leaves with one joined key the last one comes out |
| FlatDicts.LeavesInOrder | src/cloudai/util/__init__.py:106-125 | the leaves of an entry come after those of the entries before it, under its joined key, and those of an inner dict in its place |
| FlatDicts.FlattenKeepsAllIff | src/cloudai/util/__init__.py:106-125 | no leaf is overwritten if and only if the joined keys of all leaf paths differ; then the flat dict is the leaves in order |
| FlatDicts.SeparatorHides | src/cloudai/util/__init__.py:106-125 | with a separator in a key two different dicts flatten to the same one |
| FlatDicts.EmptyKeyHides | src/cloudai/util/__init__.py:106-125 | with an empty key two different dicts flatten to the same one |
| FlatDicts.EmptyDictHides | src/cloudai/util/__init__.py:106-125 | an empty inner dict disappears |
| FileNames.TakenAreFew | src/cloudai/workloads/common/nixl.py:224-230 | only as many candidates can be taken as there are used names, so the search ends |
| FileNames.CandidateKeepsSuffix | src/cloudai/workloads/common/nixl.py:224-230 | a candidate is the stem, an underscore, its number and the suffix |
| FileNames.SuffixIsLast | src/cloudai/workloads/common/nixl.py:224-225 | the suffix begins with the last dot when that is neither the first nor the last character |
| FileNames.CandidateWithoutSuffix | src/cloudai/workloads/common/nixl.py:224-230 | without such a dot the number comes at the end |
| FileNames.UsedNames.UniqueFileName | src/cloudai/workloads/common/nixl.py:219-233 | the name itself if it is free, else the first free candidate; exactly that name is added |
| FileNames.NameDevices | src/cloudai/workloads/common/nixl.py:199-206 | every device of the list gets a local file name of its own |
| Grouping.TestRunsGrouper.Groups | src/cloudai/report_generator/groups.py:80-96 | comparing with first members only computes the classes of equal field values, in order of first appearance |
| Grouping.TestRunsGrouper.AddRun | src/cloudai/report_generator/groups.py:86-95 | the inner loop with its else adds a run to the one class it agrees with, or opens a new one |
| Grouping.TogetherIffEqual | src/cloudai/report_generator/groups.py:80-96 | two runs share a group exactly when they agree on every field |
| Grouping.NothingLost | src/cloudai/report_generator/groups.py:80-96 | no run is lost or repeated |
| Grouping.EarlierGroupsFirst | src/cloudai/report_generator/groups.py:80-96 | later runs only extend the groups of earlier ones at the end, or follow with new groups |

## Left out

- Sleeps, logging, directory creation and the shell, sbatch, sacct, kubectl and REST calls: what they answer is a parameter.
- The scheduler: an exception from a kill is not modelled; one from `on_job_completion` is part of the answer to the status question.
- The scheduler: of a test run's hash only `current_iteration` changes during a run, so only it is modelled; equality of test runs is equality of their unique names.
- The scheduler: the count that `monitor_jobs` returns is not used by `run` and not modelled; `delayed_submit_test` waits 0 seconds.
- The scheduler: termination is proved for dry runs; a real run ends only if the cluster ever calls its jobs completed.
- Runner.BaseRunner.Run: watches the loop for a given number of turns, since a real run need not end; `RunDry` has the loop itself.
- RunnerDryStarts.DryRunStartsExactly: leaves out scenarios in which the order inside a turn decides whether a test is still listed at the next poll: a test that is waited for to be up, waits itself for another to be up, and has one iteration and a start_post_comp edge as well, or more iterations and an end_post_comp edge.
- RunnerDryOnce.DryRunSubmitsOnceIff: one start dependency per test and no end_post_comp, since a test with both kinds of start edge is started once by each, and a kill ends a test after a number of turns that depends on the order inside a turn.
- RunnerTermination.DryRunTerminates: one way only; whether a cycle that is entered keeps going depends on the order inside a turn.
- RunnerRepeats.NeverRepeatsIff: test runs without design-space steps; a stepped test run starts no dependents.
- Numerals: `\d` and `int()` also accept digits outside ASCII; the model has ASCII digits, signs, underscores and surrounding spaces only.
- NodeListTrip.ParseFormat: names are a prefix free of brackets, commas and whitespace followed by digits; for other names the printer itself is modelled, not the round trip.
- The allocator: the texts of sinfo and squeue come in as lists of entries; cutting their lines and mapping state names is not modelled.
- The allocator: partition names are taken as different; two partitions with one name would share the node objects inserted for it.
- The allocator: the whole `groups` dictionary is rebuilt for each lookup in the source; the model reads every node list but builds only the group asked for.
- The allocator: which caches hold a strategy's nodes, and so which held nodes belong to live jobs, is not modelled.
- The parameter space: workloads that override `cmd_args_dict`, so that the search for lists sees only some of the arguments, are not modelled.
- The environment: `apply_params_set` is opaque and keeps name, step and iteration; the CSV file, rendering and `reset` are not modelled.
- Gym.HandleDseJob: the loop for one test run; the refusal of dependencies, unknown agents and the reports after it are not modelled, and an agent that stops early is not a grid agent.
- ActionValues.MatchIsEquality: NaN, which equals nothing, is not a value of the model; dict keys are strings.
- Time limits: fractions of a second do not occur, since every parsed unit is a whole number of seconds.
- Nested dictionaries: the merge shares sub-dicts with its arguments; nothing mutates them, so sharing is not modelled.
- Grouping.TestRunsGrouper.Groups: the display names of groups and items are left out, and every field is taken to exist on every run.
- Command, script and JSON generation, Kubernetes, RunAI, LSF and standalone systems, installers, reports and reward functions: string templates and thin wrappers.
