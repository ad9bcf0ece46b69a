/** `BaseRunner` with the objects it mutates: the list of jobs, the dict from test runs to jobs, the
    iteration counter of every test run and the terminated mark of every job.  Each method computes
    the function of `RunnerModel` with the same name, and list and dict agree after each of them. */
module Runner {
  import opened RunnerModel
  import opened RunnerSafety
  import opened RunnerCoverage
  import opened RunnerTermination

  /** `index` stands for the unique id; everything else that never changes is in `Env.tests`. */
  class TestRun {
    const index: nat
    var currentIteration: nat

    constructor (index: nat, first: nat)
      ensures this.index == index && currentIteration == first
    {
      this.index, currentIteration := index, first;
    }
  }

  class Job {
    const testRun: TestRun
    const id: int
    var terminatedByDependency: bool

    constructor (testRun: TestRun, id: int)
      ensures this.testRun == testRun && this.id == id && !terminatedByDependency
    {
      this.testRun, this.id, terminatedByDependency := testRun, id, false;
    }
  }

  /** A slot of the dict.  `hashed` is what the key contributed to its hash when it was stored:
      `TestRun.__hash__` covers `current_iteration`, so a slot whose key has moved on is lost. */
  datatype Slot = Slot(key: TestRun, hashed: nat, job: Job)

  predicate SameKey(slot: Slot, tr: TestRun)
    reads tr
  {
    slot.hashed == tr.currentIteration && slot.key == tr
  }

  /** Where `tr` is stored; the end when it is not. */
  function Lookup(slots: seq<Slot>, tr: TestRun): (k: nat)
    reads tr
    ensures k <= |slots| && (k < |slots| ==> SameKey(slots[k], tr))
    ensures forall i | 0 <= i < k :: !SameKey(slots[i], tr)
  {
    if slots == [] || SameKey(slots[0], tr) then 0
    else
      assert forall i | 1 <= i < |slots| :: slots[i] == slots[1..][i - 1];
      1 + Lookup(slots[1..], tr)
  }

  /** Dict assignment: replace the job of a slot in place, or append. */
  function Store(slots: seq<Slot>, k: nat, slot: Slot): seq<Slot> {
    if k < |slots| then slots[k := slots[k].(job := slot.job)] else slots + [slot]
  }

  /** Dataclass equality of jobs. */
  predicate SameJob(a: Job, b: Job)
    reads a, b
  {
    a.testRun == b.testRun && a.id == b.id && a.terminatedByDependency == b.terminatedByDependency
  }

  /** What `list.remove` looks for: the first equal job. */
  function FirstEqual(jobs: seq<Job>, job: Job): (k: nat)
    reads jobs, job
    ensures k <= |jobs| && (k < |jobs| ==> SameJob(jobs[k], job))
    ensures forall i | 0 <= i < k :: !SameJob(jobs[i], job)
  {
    if jobs == [] || SameJob(jobs[0], job) then 0
    else
      assert forall i | 1 <= i < |jobs| :: jobs[i] == jobs[1..][i - 1];
      1 + FirstEqual(jobs[1..], job)
  }

  /** Taking out position `k` and appending loses nothing else. */
  lemma OneLess(before: seq<Job>, rest: seq<Job>, after: seq<Job>, k: nat)
    requires k < |before| && rest == before[..k] + before[k + 1..]
    requires |rest| <= |after| && after[..|rest|] == rest
    ensures forall i | 0 <= i < |before| && before[i] != before[k] :: before[i] in after
    ensures forall i | 0 <= i < |rest| :: after[i] in before
  {
    forall i | 0 <= i < |before| && before[i] != before[k] ensures before[i] in after {
      assert after[..|rest|][if i < k then i else i - 1] == before[i];
    }
    forall i | 0 <= i < |rest| ensures after[i] in before {
      assert after[i] == after[..|rest|][i] == before[if i < k then i else i + 1];
    }
  }

  lemma Dropped<T>(s: seq<T>, k: nat)
    requires k < |s|
    ensures var rest := s[..k] + s[k + 1..];
            |rest| == |s| - 1 && forall i | 0 <= i < |rest| :: rest[i] == s[if i < k then i else i + 1]
  {
  }

  class BaseRunner {
    const env: Env
    const testRuns: seq<TestRun>
    var jobs: seq<Job>
    var jobOf: seq<Slot>
    var trace: seq<Event>
    var halted: bool
    var exited: bool
    var shuttingDown: bool
    ghost var model: State
    ghost var known: set<Job>

    /** List and dict hold the same jobs in the same order, each under its own test run with an up
        to date hash, no test run twice; `model` is the state they represent and `known` holds all the
        jobs there have been. */
    ghost predicate Valid()
      reads this, testRuns, jobs
    {
      && |testRuns| == |env.tests| && (forall i | 0 <= i < |testRuns| :: testRuns[i].index == i)
      && (forall k | 0 <= k < |jobs| :: Owned(jobs[k].testRun) && jobs[k] in known)
      && (forall i, j | 0 <= i < j < |jobs| :: jobs[i].testRun != jobs[j].testRun)
      && |jobOf| == |jobs|
      && (forall k | 0 <= k < |jobs| :: jobOf[k] == Slot(jobs[k].testRun, jobs[k].testRun.currentIteration, jobs[k]))
      && Represents(model)
    }

    /** A test run of this scenario. */
    predicate Owned(tr: TestRun) {
      tr.index < |testRuns| && testRuns[tr.index] == tr
    }

    ghost predicate Represents(s: State)
      reads this, testRuns, jobs
    {
      && |s.queue| == |jobs| && |s.iters| == |testRuns|
      && (forall k | 0 <= k < |jobs| ::
            s.queue[k] == LiveJob(jobs[k].testRun.index, jobs[k].id, jobs[k].terminatedByDependency))
      && (forall i | 0 <= i < |testRuns| :: s.iters[i] == testRuns[i].currentIteration)
      && s.log == trace && s.halted == halted && s.exited == exited && s.shuttingDown == shuttingDown
    }

    /** The list has only grown since it was `before`. */
    predicate Appended(before: seq<Job>)
      reads this
    {
      before <= jobs
    }

    /** All jobs that have become known are new objects. */
    twostate predicate OnlyNewJobs()
      reads this
    {
      forall j | j in known :: j in old(known) || fresh(j)
    }

    constructor (env: Env)
      ensures Valid() && model == Fresh(env) && this.env == env && fresh(testRuns) && known == {}
    {
      var trs: seq<TestRun> := [];
      for i := 0 to |env.tests|
        invariant |trs| == i && fresh(trs)
        invariant forall k | 0 <= k < i :: trs[k].index == k && trs[k].currentIteration == env.tests[k].first
      {
        var tr := new TestRun(i, env.tests[i].first);
        trs := trs + [tr];
      }
      this.env, testRuns := env, trs;
      jobs, jobOf, trace, halted, exited, shuttingDown := [], [], [], false, false, false;
      model, known := Fresh(env), {};
    }

    /** `tr in testrun_to_job_map`. */
    predicate InMap(tr: TestRun)
      reads this, tr
    {
      Lookup(jobOf, tr) < |jobOf|
    }

    lemma InMapIsLive(tr: TestRun)
      requires Valid() && Owned(tr)
      ensures InMap(tr) == Live(model, tr.index)
      ensures InMap(tr) <==> exists k :: 0 <= k < |jobs| && jobs[k].testRun == tr
    {
      var k := Lookup(jobOf, tr);
      if k < |jobOf| {
        assert model.queue[k].test == tr.index;
      }
      if Live(model, tr.index) {
        var i :| 0 <= i < |model.queue| && model.queue[i].test == tr.index;
        assert SameKey(jobOf[i], tr);
      }
    }

    /** An exception leaves `run`. */
    method Abort()
      requires Valid()
      modifies this`halted, this`model
      ensures Valid() && model == Halt(old(model))
    {
      halted := true;
      model := Halt(model);
    }

    /** `exit(1)`. */
    method Exit()
      requires Valid()
      modifies this`halted, this`exited, this`model
      ensures Valid() && model == Halt(old(model)).(exited := true)
    {
      halted, exited := true, true;
      model := Halt(model).(exited := true);
    }

    /** Something crosses the boundary to the cluster. */
    method Record(e: Event)
      requires Valid()
      modifies this`trace, this`model
      ensures Valid() && model == Note(old(model), e)
    {
      trace := trace + [e];
      model := Note(model, e);
    }

    method Enlist(job: Job)
      requires Valid() && Owned(job.testRun) && !InMap(job.testRun) && !job.terminatedByDependency
      modifies this`jobs, this`jobOf, this`model, this`known
      ensures Valid() && jobs == old(jobs) + [job] && known == old(known) + {job}
      ensures model == old(model).(queue := old(model).queue + [LiveJob(job.testRun.index, job.id, false)])
    {
      InMapIsLive(job.testRun);
      jobs, known := jobs + [job], known + {job};
      jobOf := Store(jobOf, Lookup(jobOf, job.testRun), Slot(job.testRun, job.testRun.currentIteration, job));
      model := model.(queue := model.queue + [LiveJob(job.testRun.index, job.id, false)]);
    }

    method SubmitTest(tr: TestRun)
      requires Valid() && Owned(tr) && (!halted ==> !InMap(tr))
      modifies this
      ensures Valid() && model == Submit(env, old(model), tr.index) && Appended(old(jobs)) && OnlyNewJobs()
    {
      if halted { return; }
      var answer := if env.dryRun then Yes else env.answer(|trace|);
      if answer == Raise {
        Abort();
      } else if answer == No {
        Exit();
      } else {
        StartJob(tr);
      }
    }

    /** The submission that succeeds. */
    method StartJob(tr: TestRun)
      requires Valid() && Owned(tr) && !InMap(tr)
      modifies this`jobs, this`jobOf, this`trace, this`model, this`known
      ensures Valid() && Appended(old(jobs)) && OnlyNewJobs()
      ensures var id := if env.dryRun then 0 else env.jobId(|old(trace)|);
              model == Note(old(model), Submitted(tr.index, tr.currentIteration))
                         .(queue := old(model).queue + [LiveJob(tr.index, id, false)])
    {
      var job := new Job(tr, if env.dryRun then 0 else env.jobId(|trace|));
      Record(Submitted(tr.index, tr.currentIteration));
      Enlist(job);
    }

    /** Only tests before position `i` are listed. */
    predicate ListedBefore(i: nat)
      reads this
    {
      forall k | 0 <= k < |jobs| :: jobs[k].testRun.index < i
    }

    /** One turn of the loop. */
    method SubmitRoot(i: nat, ghost goal: State)
      requires Valid() && i < |testRuns| && ListedBefore(i) && SubmitRoots(env, model, i) == goal
      modifies this
      ensures Valid() && Appended(old(jobs)) && OnlyNewJobs() && ListedBefore(i + 1) && SubmitRoots(env, model, i + 1) == goal
    {
      var test := env.tests[i];
      if StartPostComp !in test.deps && StartPostInit !in test.deps {
        InMapIsLive(testRuns[i]);
        SubmitTest(testRuns[i]);
      }
    }

    method SubmitRootTests()
      requires Valid() && model == Fresh(env)
      modifies this
      ensures Valid() && model == SubmitRoots(env, old(model), 0) && OnlyNewJobs()
    {
      ghost var goal := SubmitRoots(env, model, 0);
      for i := 0 to |testRuns|
        invariant Valid() && OnlyNewJobs() && ListedBefore(i) && SubmitRoots(env, model, i) == goal
      {
        SubmitRoot(i, goal);
      }
    }

    /** The scan from position `i` on leads to `goal`. */
    ghost predicate Scans(kind: DepKind, source: nat, i: nat, goal: State)
      reads this`model
    {
      InScenario(env, model) && i <= |env.tests| && StartDependents(env, model, kind, source, i) == goal
    }

    /** One turn of the scan for dependents. */
    method ScheduleOne(kind: DepKind, source: nat, i: nat, ghost before: seq<Job>, ghost goal: State)
      requires Valid() && i < |testRuns| && before <= jobs && Scans(kind, source, i, goal)
      modifies this
      ensures Valid() && before <= jobs && OnlyNewJobs() && Scans(kind, source, i + 1, goal)
    {
      var tr := testRuns[i];
      InMapIsLive(tr);
      if !InMap(tr) {
        if kind in env.tests[i].deps && env.tests[i].deps[kind] == source {
          SubmitTest(tr);
        }
      }
    }

    /** The scan for tests that wait for `source` to start or to complete. */
    method ScheduleDependents(kind: DepKind, source: nat)
      requires Valid()
      modifies this
      ensures Valid() && model == StartDependents(env, old(model), kind, source, 0) && Appended(old(jobs)) && OnlyNewJobs()
    {
      ghost var before, goal := jobs, StartDependents(env, model, kind, source, 0);
      for i := 0 to |testRuns|
        invariant Valid() && before <= jobs && OnlyNewJobs()
        invariant Scans(kind, source, i, goal)
      {
        ScheduleOne(kind, source, i, before, goal);
      }
      ScanEnds(env, model, kind, source, |testRuns|);
    }

    /** One polled job. */
    method PollOne(tr: TestRun)
      requires Valid() && !halted
      modifies this
      ensures Valid() && Appended(old(jobs)) && OnlyNewJobs()
      ensures model == if Ask(env, old(model)) == Raise then Halt(old(model))
                       else var s := Note(old(model), Polled(tr.index, Ask(env, old(model)) == Yes));
                            if Ask(env, old(model)) == Yes then StartDependents(env, s, StartPostInit, tr.index, 0) else s
    {
      var answer := if env.dryRun then Yes else env.answer(|trace|);
      if answer == Raise {
        Abort();
      } else {
        Record(Polled(tr.index, answer == Yes));
        if answer == Yes {
          ScheduleDependents(StartPostInit, tr.index);
        }
      }
    }

    method CheckStartPostInitDependencies()
      requires Valid()
      modifies this
      ensures Valid() && model == PollInit(env, old(model), old(model).queue, 0) && Appended(old(jobs)) && OnlyNewJobs()
    {
      var items := jobOf;
      ghost var queue, goal := model.queue, PollInit(env, model, model.queue, 0);
      var k := 0;
      while k < |items| && !halted
        invariant 0 <= k <= |items| && Valid() && Appended(old(jobs)) && OnlyNewJobs()
        invariant PollInit(env, model, queue, k) == goal
        decreases |items| - k
      {
        PollOne(items[k].key);
        k := k + 1;
      }
    }

    method DelayedKillJob(k: nat)
      requires Valid() && k < |jobOf|
      modifies this`trace, this`model, jobOf[k].job
      ensures Valid() && |jobOf| == |old(jobOf)|
      ensures model == Note(old(model), Killed(old(model).queue[k].test))
                         .(queue := old(model).queue[k := old(model).queue[k].(terminated := true)])
    {
      var job := jobOf[k].job;
      job.terminatedByDependency := true;
      trace := trace + [Killed(job.testRun.index)];
      model := Note(model, Killed(model.queue[k].test)).(queue := model.queue[k := model.queue[k].(terminated := true)]);
      assert forall i | 0 <= i < |jobs| && i != k :: jobs[i] != jobs[k];
    }

    method KillDependents(source: nat)
      requires Valid()
      modifies this`trace, this`model, known
      ensures Valid() && model == RunnerModel.KillDependents(env, old(model), source, 0)
    {
      ghost var goal := RunnerModel.KillDependents(env, model, source, 0);
      for k := 0 to |jobOf|
        invariant Valid()
        invariant Kills(source, k, goal)
      {
        KillOne(k, source, goal);
      }
      KillsEnd(env, model, source, |jobOf|);
    }

    /** The loop from position `k` on leads to `goal`. */
    ghost predicate Kills(source: nat, k: nat, goal: State)
      reads this`model
    {
      InScenario(env, model) && k <= |model.queue| && RunnerModel.KillDependents(env, model, source, k) == goal
    }

    /** One turn of the loop. */
    method KillOne(k: nat, source: nat, ghost goal: State)
      requires Valid() && k < |jobOf| && Kills(source, k, goal)
      modifies this`trace, this`model, known
      ensures Valid() && |jobOf| == |old(jobOf)| && Kills(source, k + 1, goal)
    {
      var test := env.tests[jobOf[k].key.index];
      assert jobOf[k].job == jobs[k];
      if EndPostComp in test.deps && test.deps[EndPostComp] == source {
        DelayedKillJob(k);
      }
    }

    method HandleDependencies(source: nat)
      requires Valid()
      modifies this, known
      ensures Valid() && model == RunnerModel.HandleDependencies(env, old(model), source) && Appended(old(jobs)) && OnlyNewJobs()
    {
      ScheduleDependents(StartPostComp, source);
      if !halted {
        KillDependents(source);
      }
    }

    method Discard(k: nat, d: nat)
      requires Valid() && k == d < |jobs|
      modifies this`jobs, this`jobOf, this`model
      ensures Valid() && jobs == old(jobs)[..k] + old(jobs)[k + 1..]
      ensures model == old(model).(queue := old(model).queue[..k] + old(model).queue[k + 1..])
      ensures forall i | 0 <= i < |jobs| :: jobs[i].testRun != old(jobs)[k].testRun
    {
      Dropped(jobs, k);
      Dropped(jobOf, k);
      Dropped(model.queue, k);
      jobs := jobs[..k] + jobs[k + 1..];
      jobOf := jobOf[..d] + jobOf[d + 1..];
      model := model.(queue := model.queue[..k] + model.queue[k + 1..]);
    }

    /** `jobs.remove` and `del` go by equality, yet exactly the completed job leaves both. */
    method Remove(job: Job)
      requires Valid() && !halted && job in jobs
      modifies this`jobs, this`jobOf, this`trace, this`model
      ensures Valid() && Owned(job.testRun) && !InMap(job.testRun) && trace != []
      ensures var k := FindJob(old(model).queue, job.testRun.index);
              && k < |old(jobs)| && old(jobs)[k] == job && jobs == old(jobs)[..k] + old(jobs)[k + 1..]
              && model == TakeOff(old(model), k) && old(model).queue[k].terminated == job.terminatedByDependency
    {
      AtItsPlace(job);
      var k, d := FirstEqual(jobs, job), Lookup(jobOf, job.testRun);
      Record(Completed(job.testRun.index, job.testRun.currentIteration, job.terminatedByDependency));
      Discard(k, d);
      InMapIsLive(job.testRun);
    }

    /** The only listed job equal to `job` is `job`, and the dict keeps it at the same place. */
    lemma AtItsPlace(job: Job)
      requires Valid() && job in jobs
      ensures var k := FindJob(model.queue, job.testRun.index);
              k < |jobs| && jobs[k] == job && FirstEqual(jobs, job) == k && Lookup(jobOf, job.testRun) == k
    {
      var at :| 0 <= at < |jobs| && jobs[at] == job;
      assert model.queue[at].test == job.testRun.index;
      assert SameJob(jobs[at], job) && SameKey(jobOf[at], job.testRun);
      forall i | 0 <= i < |jobs| && i != at ensures jobs[i].testRun != job.testRun {}
      var k := FindJob(model.queue, job.testRun.index);
      assert testRuns[jobs[k].testRun.index] == jobs[k].testRun;
    }

    /** The iteration may move on only while the test run is no key of the dict. */
    method Advance(tr: TestRun)
      requires Valid() && Owned(tr) && !InMap(tr)
      modifies tr, this`model
      ensures Valid() && !InMap(tr) && tr.currentIteration == old(tr.currentIteration) + 1
      ensures model == old(model).(iters := old(model).iters[tr.index := old(model).iters[tr.index] + 1])
    {
      InMapIsLive(tr);
      assert forall k | 0 <= k < |jobs| :: jobs[k].testRun != tr;
      tr.currentIteration := tr.currentIteration + 1;
      model := model.(iters := model.iters[tr.index := tr.currentIteration]);
      InMapIsLive(tr);
    }

    function Listed(): set<Job>
      reads this
    {
      set j | j in jobs
    }

    /** The second half of `handle_job_completion`, once the job is off the list. */
    method IterateOrContinue(tr: TestRun, terminated: bool)
      requires Valid() && !halted && Owned(tr) && !InMap(tr)
      modifies this, known, testRuns
      ensures Valid() && Appended(old(jobs)) && OnlyNewJobs()
      ensures model == Resume(env, old(model), tr.index, terminated)
    {
      var test := env.tests[tr.index];
      if test.step <= 0 {
        if !terminated && tr.currentIteration + 1 < test.iterations {
          Advance(tr);
          SubmitTest(tr);
        } else {
          HandleDependencies(tr.index);
        }
      }
    }

    method HandleJobCompletion(job: Job)
      requires Valid() && !halted && job in jobs
      modifies this, known, testRuns
      ensures Valid() && model == Complete(env, old(model), job.testRun.index) && old(Listed()) - {job} <= Listed() && OnlyNewJobs()
    {
      ghost var before, at := jobs, FindJob(model.queue, job.testRun.index);
      Remove(job);
      ghost var rest := jobs;
      IterateOrContinue(job.testRun, job.terminatedByDependency);
      OneLess(before, rest, jobs, at);
      assert forall j | j in old(Listed()) && j != job :: j in Listed();
    }

    /** `shutdown`. */
    method Shutdown()
      requires Valid()
      modifies this`shuttingDown, this`trace, this`model
      ensures Valid() && model == RunnerModel.Shutdown(old(model), 0)
    {
      ghost var goal := RunnerModel.Shutdown(model, 0);
      for k := 0 to |jobs|
        invariant Valid()
        invariant Cancels(k, goal)
      {
        Record(Cancelled(jobs[k].testRun.index));
      }
      SetShuttingDown();
    }

    /** The loop from position `k` on leads to `goal`. */
    ghost predicate Cancels(k: nat, goal: State)
      reads this`model
    {
      k <= |model.queue| && RunnerModel.Shutdown(model, k) == goal
    }

    method SetShuttingDown()
      requires Valid()
      modifies this`shuttingDown, this`model
      ensures Valid() && model == old(model).(shuttingDown := true)
    {
      shuttingDown := true;
      model := model.(shuttingDown := true);
    }

    /** `shutdown` and the `JobFailureError` that follows it. */
    method Fail()
      requires Valid()
      modifies this`shuttingDown, this`trace, this`halted, this`model
      ensures Valid() && model == Halt(RunnerModel.Shutdown(old(model), 0))
    {
      Shutdown();
      Abort();
    }

    /** The part of `monitor_jobs` that handles one completed job. */
    method SettleJob(job: Job)
      requires Valid() && !halted && job in jobs
      modifies this, known, testRuns
      ensures Valid() && model == Settle(env, old(model), job.testRun.index) && old(Listed()) - {job} <= Listed() && OnlyNewJobs()
    {
      if env.dryRun {
        HandleJobCompletion(job);
      } else {
        SettleLive(job);
      }
    }

    /** With a status question and, where the status is checked, a failure that ends the run. */
    method SettleLive(job: Job)
      requires Valid() && !halted && job in jobs && !env.dryRun
      modifies this, known, testRuns
      ensures Valid() && model == Settle(env, old(model), job.testRun.index) && old(Listed()) - {job} <= Listed() && OnlyNewJobs()
    {
      var answer := env.answer(|trace|);
      if answer == Raise {
        Abort();
      } else {
        JudgeJob(job, answer == Yes);
        if answer != Yes && env.statusCheck && !halted {
          Fail();
        }
      }
    }

    method JudgeJob(job: Job, ok: bool)
      requires Valid() && !halted && job in jobs
      modifies this, known, testRuns
      ensures Valid() && old(Listed()) - {job} <= Listed() && OnlyNewJobs()
      ensures model == Complete(env, Note(old(model), Judged(job.testRun.index, ok)), job.testRun.index)
    {
      Record(Judged(job.testRun.index, ok));
      HandleJobCompletion(job);
    }

    /** One listed job. */
    method MonitorOne(job: Job)
      requires Valid() && !halted && job in jobs
      modifies this, known, testRuns
      ensures Valid() && old(Listed()) - {job} <= Listed() && OnlyNewJobs()
      ensures Checks(env, old(model), model, job.testRun.index)
    {
      var answer := if env.dryRun then Yes else env.answer(|trace|);
      if answer == Raise {
        Abort();
      } else {
        Record(Checked(job.testRun.index, answer == Yes));
        if answer == Yes {
          SettleJob(job);
        }
      }
    }

    lemma SnapshotFacts()
      requires Valid()
      ensures |model.queue| == |jobs| && forall i, j | 0 <= i < j < |jobs| :: jobs[i] != jobs[j]
      ensures forall i | 0 <= i < |jobs| :: model.queue[i].test == jobs[i].testRun.index && jobs[i] in Listed()
    {
    }

    /** One turn of the loop of `monitor_jobs`, with the jobs that are still to come. */
    method MonitorNext(job: Job, ghost before: set<Job>, ghost trail: seq<State>, ghost queue: seq<LiveJob>)
      returns (ghost rest: set<Job>, ghost longer: seq<State>)
      requires Valid() && !halted && job in before && before <= Listed()
      requires Trail(env, trail, queue) && |trail| <= |queue|
      requires trail[|trail| - 1] == model && queue[|trail| - 1].test == job.testRun.index
      modifies this, known, testRuns
      ensures Valid() && OnlyNewJobs() && rest == before - {job} && rest <= Listed()
      ensures Trail(env, longer, queue) && longer == trail + [model]
    {
      MonitorOne(job);
      TrailNext(env, trail, queue, model);
      rest, longer := before - {job}, trail + [model];
    }

    method MonitorJobs()
      requires Valid()
      modifies this, known, testRuns
      ensures Valid() && model == Monitor(env, old(model), old(model).queue, 0)
      ensures OnlyNewJobs()
    {
      ghost var queue := model.queue;
      ghost var trail := MonitorSnapshot();
      TrailEnds(env, trail, queue, 0);
    }

    /** The loop of `monitor_jobs`; `trail` holds the state before each job and at the end. */
    method MonitorSnapshot() returns (ghost trail: seq<State>)
      requires Valid()
      modifies this, known, testRuns
      ensures Valid() && OnlyNewJobs()
      ensures Trail(env, trail, old(model).queue) && trail[0] == old(model) && trail[|trail| - 1] == model
      ensures model.halted || |trail| == |old(model).queue| + 1
    {
      var snapshot := jobs;
      ghost var queue, rest := model.queue, Listed();
      SnapshotFacts();
      trail := [model];
      var k := 0;
      while k < |snapshot| && !halted
        invariant 0 <= k <= |snapshot| && Valid() && OnlyNewJobs() && rest <= Listed()
        invariant forall i | k <= i < |snapshot| :: snapshot[i] in rest
        invariant |trail| == k + 1 && trail[0] == old(model) && trail[k] == model && Trail(env, trail, queue)
        decreases |snapshot| - k
      {
        rest, trail := MonitorNext(snapshot[k], rest, trail, queue);
        k := k + 1;
      }
    }

    /** One turn of the loop in `run`. */
    method Turn()
      requires Valid() && !halted
      modifies this, known, testRuns
      ensures Valid() && model == Round(env, old(model))
      ensures OnlyNewJobs()
    {
      CheckStartPostInitDependencies();
      if !halted {
        MonitorJobs();
      }
    }

    /** `run` on a new runner, watched for at most `rounds` turns: a live cluster may never answer. */
    method Run(rounds: nat)
      requires Valid() && model == Fresh(env) && known == {}
      modifies this, testRuns
      ensures Valid() && model == RunnerModel.Run(env, rounds)
      ensures Good(env, model)
    {
      SubmitRootTests();
      Turns(rounds);
      RunIsLegal(env, rounds);
    }

    /** The loop of `run`. */
    method Turns(rounds: nat)
      requires Valid()
      modifies this, known, testRuns
      ensures Valid() && model == Rounds(env, old(model), rounds)
    {
      ghost var goal, left := Rounds(env, model, rounds), rounds;
      var n := 0;
      while n < rounds && jobs != [] && !halted
        invariant 0 <= n <= rounds && left == rounds - n && Valid() && OnlyNewJobs() && Rounds(env, model, left) == goal
      {
        left := TurnTowards(goal, left);
        n := n + 1;
      }
    }

    method TurnTowards(ghost goal: State, ghost left: nat) returns (ghost less: nat)
      requires Valid() && !halted && jobs != [] && left > 0 && Rounds(env, model, left) == goal
      modifies this, known, testRuns
      ensures Valid() && OnlyNewJobs() && less == left - 1 && Rounds(env, model, less) == goal
    {
      RoundsNext(env, model, left);
      less := left - 1;
      Turn();
    }

    /** `run` in dry-run mode, with the loop as it stands: it ends when it can enter no cycle of start edges. */
    method RunDry(ghost rank: nat -> nat)
      requires Valid() && model == Fresh(env) && known == {} && env.dryRun && EntryRanked(env, rank)
      modifies this, testRuns
      ensures Valid() && !halted && jobs == [] && jobOf == []
      ensures exists rounds :: model == RunnerModel.Run(env, rounds)
    {
      RootsReady(env, rank, model, 0);
      ghost var bound := Measure(env, rank, SubmitRoots(env, model, 0));
      RoundsEnd(env, rank, SubmitRoots(env, model, 0), bound);
      SubmitRootTests();
      ghost var n := TurnsToTheEnd(bound);
      assert model == RunnerModel.Run(env, n);
    }

    /** The loop of `run`, when some number of turns is known to end it; `n` counts its turns. */
    method TurnsToTheEnd(ghost bound: nat) returns (ghost n: nat)
      requires Valid() && !halted && EndedNormally(Rounds(env, model, bound))
      modifies this, known, testRuns
      ensures Valid() && !halted && jobs == [] && model == Rounds(env, old(model), n)
    {
      ghost var start := model;
      n := 0;
      while jobs != []
        invariant Valid() && OnlyNewJobs() && !halted && n <= bound && model == Rounds(env, start, n)
        decreases bound - n
      {
        n := TurnFurther(start, n, bound);
      }
    }

    method TurnFurther(ghost start: State, ghost n: nat, ghost bound: nat) returns (ghost next: nat)
      requires Valid() && !halted && jobs != [] && n <= bound && InScenario(env, start)
      requires EndedNormally(Rounds(env, start, bound)) && model == Rounds(env, start, n)
      modifies this, known, testRuns
      ensures Valid() && OnlyNewJobs() && !halted && next == n + 1 <= bound && model == Rounds(env, start, next)
    {
      BeforeTheEnd(env, start, n, bound);
      next := n + 1;
      Turn();
    }
  }

  lemma ScanEnds(env: Env, s: State, kind: DepKind, source: nat, i: nat)
    requires InScenario(env, s) && i == |env.tests|
    ensures StartDependents(env, s, kind, source, i) == s
  {
  }

  lemma KillsEnd(env: Env, s: State, source: nat, k: nat)
    requires InScenario(env, s) && k == |s.queue|
    ensures RunnerModel.KillDependents(env, s, source, k) == s
  {
  }

  predicate Checks(env: Env, s: State, r: State, t: nat) {
    InScenario(env, s) && t < |env.tests| && !s.halted && r == CheckOne(env, s, t)
  }

  predicate Trail(env: Env, trail: seq<State>, queue: seq<LiveJob>) {
    0 < |trail| <= |queue| + 1 && forall i | 0 <= i < |trail| - 1 :: TrailAt(env, trail, queue, i)
  }

  predicate TrailAt(env: Env, trail: seq<State>, queue: seq<LiveJob>, i: nat)
    requires i + 1 < |trail| <= |queue| + 1
  {
    Checks(env, trail[i], trail[i + 1], queue[i].test)
  }

  lemma TrailNext(env: Env, trail: seq<State>, queue: seq<LiveJob>, r: State)
    requires Trail(env, trail, queue) && |trail| <= |queue| && Checks(env, trail[|trail| - 1], r, queue[|trail| - 1].test)
    ensures Trail(env, trail + [r], queue)
  {
    forall i | 0 <= i < |trail| ensures TrailAt(env, trail + [r], queue, i) {
      assert i < |trail| - 1 ==> TrailAt(env, trail, queue, i);
    }
  }

  lemma {:induction false} TrailEnds(env: Env, trail: seq<State>, queue: seq<LiveJob>, k: nat)
    requires Trail(env, trail, queue) && k < |trail|
    requires forall i | 0 <= i < |queue| :: queue[i].test < |env.tests|
    requires InScenario(env, trail[k]) && (trail[|trail| - 1].halted || |trail| == |queue| + 1)
    ensures Monitor(env, trail[k], queue, k) == trail[|trail| - 1]
    decreases |trail| - k
  {
    if k < |trail| - 1 {
      assert TrailAt(env, trail, queue, k);
      TrailEnds(env, trail, queue, k + 1);
    }
  }

  lemma NoMoreRounds(env: Env, s: State, rounds: nat)
    requires InScenario(env, s) && (s.halted || s.queue == [])
    ensures Rounds(env, s, rounds) == s
  {
  }

  lemma RoundsNext(env: Env, s: State, rounds: nat)
    requires InScenario(env, s) && !s.halted && s.queue != [] && rounds > 0
    ensures Rounds(env, s, rounds) == Rounds(env, Round(env, s), rounds - 1)
  {
  }

  /** A run that ends normally has not been halted before, and while it has jobs it has not ended. */
  lemma BeforeTheEnd(env: Env, s: State, n: nat, bound: nat)
    requires InScenario(env, s) && EndedNormally(Rounds(env, s, bound)) && n <= bound && Rounds(env, s, n).queue != []
    ensures n < bound && !Rounds(env, s, n).halted && !Rounds(env, s, n + 1).halted
    ensures Rounds(env, s, n + 1) == Round(env, Rounds(env, s, n))
  {
    NotHaltedBefore(env, s, n, bound);
    NotHaltedBefore(env, s, n + 1, bound);
    OneMoreRound(env, s, n);
  }

  lemma {:induction false} NotHaltedBefore(env: Env, s: State, n: nat, bound: nat)
    requires InScenario(env, s) && EndedNormally(Rounds(env, s, bound)) && n <= bound
    ensures !Rounds(env, s, n).halted
    decreases n
  {
    if s.halted || s.queue == [] {
      NoMoreRounds(env, s, bound);
      NoMoreRounds(env, s, n);
    } else if n > 0 {
      RoundsNext(env, s, bound);
      RoundsNext(env, s, n);
      NotHaltedBefore(env, Round(env, s), n - 1, bound - 1);
    }
  }
}
