/** The dependency-driven job scheduler as a function of the cluster's answers.

    A test is named by its position in the scenario (test ids are unique).  One `State` holds
    what `BaseRunner` keeps between two statements, plus the log of everything that crossed the
    boundary to the cluster.  Class `Runner.BaseRunner` is proved to compute these functions;
    the other `Runner` modules prove what they guarantee. */
module RunnerModel {

  datatype DepKind = StartPostInit | StartPostComp | EndPostComp

  /** `first` is the value of `current_iteration` when the run begins. */
  datatype Test = Test(iterations: int, first: nat, step: int, deps: map<DepKind, nat>)

  datatype Answer = Yes | No | Raise

  /** A scenario together with everything the outside world will ever answer.  The n-th log entry
      is preceded by at most one question, so questions are indexed by the length of the log. */
  datatype Env = Env(tests: seq<Test>, dryRun: bool, statusCheck: bool, answer: nat -> Answer, jobId: nat -> int)

  datatype Event =
    | Submitted(test: nat, iteration: nat)
    | Polled(test: nat, up: bool)
    | Checked(test: nat, done: bool)
    | Judged(test: nat, ok: bool)
    | Completed(test: nat, iteration: nat, terminated: bool)
    | Killed(test: nat)
    | Cancelled(test: nat)

  datatype LiveJob = LiveJob(test: nat, id: int, terminated: bool)

  /** `halted` stands for an exception that has left `run`; `exited` says that it was `SystemExit`. */
  datatype State = State(queue: seq<LiveJob>, iters: seq<nat>, log: seq<Event>, halted: bool, exited: bool, shuttingDown: bool)

  predicate WellFormed(env: Env) {
    forall t, k | 0 <= t < |env.tests| && k in env.tests[t].deps :: env.tests[t].deps[k] < |env.tests|
  }

  predicate InScenario(env: Env, s: State) {
    |s.iters| == |env.tests| && forall k | 0 <= k < |s.queue| :: s.queue[k].test < |env.tests|
  }

  predicate DependsOn(test: Test, kind: DepKind, source: nat) {
    kind in test.deps && test.deps[kind] == source
  }

  predicate IsRoot(test: Test) {
    StartPostComp !in test.deps && StartPostInit !in test.deps
  }

  function FindJob(queue: seq<LiveJob>, t: nat): (k: nat)
    ensures k <= |queue|
    ensures k < |queue| ==> queue[k].test == t
    ensures forall i | 0 <= i < k :: queue[i].test != t
  {
    if queue == [] then 0
    else if queue[0].test == t then 0
    else
      assert forall i | 1 <= i < |queue| :: queue[i] == queue[1..][i - 1];
      1 + FindJob(queue[1..], t)
  }

  /** `tr in testrun_to_job_map`. */
  predicate Live(s: State, t: nat) {
    exists k | 0 <= k < |s.queue| :: s.queue[k].test == t
  }

  /** In dry-run mode nobody is asked. */
  function Ask(env: Env, s: State): Answer {
    if env.dryRun then Yes else env.answer(|s.log|)
  }

  function Halt(s: State): State {
    s.(halted := true)
  }

  function Note(s: State, e: Event): State {
    s.(log := s.log + [e])
  }

  /** `submit_test`: a `JobSubmissionError` exits, every other exception leaves `run` as it is. */
  function Submit(env: Env, s: State, t: nat): (r: State)
    requires InScenario(env, s) && t < |env.tests|
    ensures InScenario(env, r)
  {
    if s.halted then s
    else if Ask(env, s) == Raise then Halt(s)
    else if Ask(env, s) == No then Halt(s).(exited := true)
    else
      var id := if env.dryRun then 0 else env.jobId(|s.log|);
      Note(s, Submitted(t, s.iters[t])).(queue := s.queue + [LiveJob(t, id, false)])
  }

  /** The loop shared by `check_and_schedule_start_post_init_dependent_tests` and the first half of
      `handle_dependencies`, from scenario position `i` on. */
  function StartDependents(env: Env, s: State, kind: DepKind, source: nat, i: nat): (r: State)
    requires InScenario(env, s) && i <= |env.tests|
    ensures InScenario(env, r)
    decreases |env.tests| - i
  {
    if i == |env.tests| then s
    else
      var s' := if !Live(s, i) && DependsOn(env.tests[i], kind, source) then Submit(env, s, i) else s;
      StartDependents(env, s', kind, source, i + 1)
  }

  /** `find_dependency_free_tests` and the submit loop of `run`. */
  function SubmitRoots(env: Env, s: State, i: nat): (r: State)
    requires InScenario(env, s) && i <= |env.tests|
    ensures InScenario(env, r)
    decreases |env.tests| - i
  {
    if i == |env.tests| then s
    else
      var s' := if IsRoot(env.tests[i]) then Submit(env, s, i) else s;
      SubmitRoots(env, s', i + 1)
  }

  /** `check_start_post_init_dependencies` over the snapshot of the map, from position `k` on. */
  function PollInit(env: Env, s: State, snapshot: seq<LiveJob>, k: nat): (r: State)
    requires InScenario(env, s) && k <= |snapshot|
    ensures InScenario(env, r)
    decreases |snapshot| - k
  {
    if k == |snapshot| || s.halted then s
    else if Ask(env, s) == Raise then Halt(s)
    else
      var t, up := snapshot[k].test, Ask(env, s) == Yes;
      var s' := Note(s, Polled(t, up));
      PollInit(env, if up then StartDependents(env, s', StartPostInit, t, 0) else s', snapshot, k + 1)
  }

  /** The second half of `handle_dependencies`: mark and kill the live jobs that must end with `source`. */
  function KillDependents(env: Env, s: State, source: nat, k: nat): (r: State)
    requires InScenario(env, s) && k <= |s.queue|
    ensures InScenario(env, r)
    decreases |s.queue| - k
  {
    if k == |s.queue| then s
    else
      var j := s.queue[k];
      var s' := if DependsOn(env.tests[j.test], EndPostComp, source)
                then Note(s, Killed(j.test)).(queue := s.queue[k := j.(terminated := true)]) else s;
      KillDependents(env, s', source, k + 1)
  }

  /** `handle_dependencies`. */
  function HandleDependencies(env: Env, s: State, t: nat): (r: State)
    requires InScenario(env, s)
    ensures InScenario(env, r)
  {
    var s' := StartDependents(env, s, StartPostComp, t, 0);
    if s'.halted then s' else KillDependents(env, s', t, 0)
  }

  /** The completed job leaves list and dict. */
  function TakeOff(s: State, k: nat): (r: State)
    requires k < |s.queue| && s.queue[k].test < |s.iters|
    ensures r.iters == s.iters && r.halted == s.halted && |r.queue| == |s.queue| - 1
  {
    var job := s.queue[k];
    Note(s, Completed(job.test, s.iters[job.test], job.terminated)).(queue := s.queue[..k] + s.queue[k + 1..])
  }

  /** The rest of `handle_job_completion`: nothing for a stepped run, else repeat or release. */
  function Resume(env: Env, s: State, t: nat, terminated: bool): (r: State)
    requires InScenario(env, s) && t < |env.tests|
    ensures InScenario(env, r)
  {
    if env.tests[t].step > 0 then s
    else if !terminated && s.iters[t] + 1 < env.tests[t].iterations then
      Submit(env, s.(iters := s.iters[t := s.iters[t] + 1]), t)
    else
      HandleDependencies(env, s, t)
  }

  /** `handle_job_completion`.  `jobs.remove` raises when the job is not listed. */
  function Complete(env: Env, s: State, t: nat): (r: State)
    requires InScenario(env, s) && t < |env.tests|
    ensures InScenario(env, r)
  {
    var k := FindJob(s.queue, t);
    if k == |s.queue| then Halt(s) else Resume(env, TakeOff(s, k), t, s.queue[k].terminated)
  }

  /** `shutdown`: kill everything that is listed, from position `k` on. */
  function Shutdown(s: State, k: nat): (r: State)
    requires k <= |s.queue|
    ensures r.queue == s.queue && r.iters == s.iters
    decreases |s.queue| - k
  {
    if k == |s.queue| then s.(shuttingDown := true)
    else Shutdown(Note(s, Cancelled(s.queue[k].test)), k + 1)
  }

  /** What `monitor_jobs` does with one job the cluster calls completed. */
  function Settle(env: Env, s: State, t: nat): (r: State)
    requires InScenario(env, s) && t < |env.tests|
    ensures InScenario(env, r)
  {
    if env.dryRun then Complete(env, s, t)
    else if Ask(env, s) == Raise then Halt(s)
    else
      var ok := Ask(env, s) == Yes;
      var s' := Complete(env, Note(s, Judged(t, ok)), t);
      if ok || !env.statusCheck || s'.halted then s' else Halt(Shutdown(s', 0))
  }

  /** What `monitor_jobs` does with one listed job. */
  function CheckOne(env: Env, s: State, t: nat): (r: State)
    requires InScenario(env, s) && t < |env.tests|
    ensures InScenario(env, r)
  {
    if Ask(env, s) == Raise then Halt(s)
    else
      var s' := Note(s, Checked(t, Ask(env, s) == Yes));
      if Ask(env, s) == Yes then Settle(env, s', t) else s'
  }

  /** `monitor_jobs` over the snapshot of the list, from position `k` on. */
  function Monitor(env: Env, s: State, snapshot: seq<LiveJob>, k: nat): (r: State)
    requires InScenario(env, s) && k <= |snapshot|
    requires forall i | 0 <= i < |snapshot| :: snapshot[i].test < |env.tests|
    ensures InScenario(env, r)
    decreases |snapshot| - k
  {
    if k == |snapshot| || s.halted then s
    else if Ask(env, s) == Raise then Halt(s)
    else
      var t, done := snapshot[k].test, Ask(env, s) == Yes;
      var s' := Note(s, Checked(t, done));
      Monitor(env, if done then Settle(env, s', t) else s', snapshot, k + 1)
  }

  /** One turn of the loop in `run`. */
  function Round(env: Env, s: State): (r: State)
    requires InScenario(env, s)
    ensures InScenario(env, r)
  {
    var s' := PollInit(env, s, s.queue, 0);
    Monitor(env, s', s'.queue, 0)
  }

  /** The loop of `run`, watched for at most `rounds` turns. */
  function Rounds(env: Env, s: State, rounds: nat): (r: State)
    requires InScenario(env, s)
    ensures InScenario(env, r)
    decreases rounds
  {
    if rounds == 0 || s.halted || s.queue == [] then s
    else Rounds(env, Round(env, s), rounds - 1)
  }

  function Fresh(env: Env): (s: State)
    ensures InScenario(env, s)
  {
    State([], seq(|env.tests|, i requires 0 <= i < |env.tests| => env.tests[i].first), [], false, false, false)
  }

  /** `run` on a new runner. */
  function Run(env: Env, rounds: nat): (r: State)
    ensures InScenario(env, r)
  {
    Rounds(env, SubmitRoots(env, Fresh(env), 0), rounds)
  }
}
