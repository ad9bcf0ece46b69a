/** `CloudAIGymEnv.step` on values, and what whole sequences of steps guarantee: the trajectory is an
    exact cache of the actions that were run. */
module GymModel {
  import opened Basics
  import opened ActionValues
  import opened RunnerModel
  import opened RunnerSteps

  /** A test run as the environment sees it; `params` is whatever applying actions has made of it. */
  datatype Trial = Trial(iterations: int, iteration: nat, step: int, params: Value)

  datatype Entry = Entry(step: int, action: Value, reward: real, observation: seq<real>)

  datatype Reply = Reply(observation: seq<real>, reward: real, done: bool)

  /** `runs` lists the actions for which the runner was started. */
  datatype Gym = Gym(trial: Trial, original: Trial, trajectory: map<nat, seq<Entry>>, runs: seq<Value>)

  /** Everything one step learns from outside: the applied parameters, the constraint check, whether the
      output directory could be made, what the cluster answers during the run and for how many turns it is
      watched, whether the run left an output directory, and the metrics with their reward. */
  datatype World = World(
    applied: Result<Value>,
    allowed: bool,
    placed: Result<()>,
    failureReward: real,
    dryRun: bool,
    statusCheck: bool,
    answer: nat -> Answer,
    jobId: nat -> int,
    rounds: nat,
    hasOutput: bool,
    outcome: Result<(seq<real>, real)>)

  /** One call: `step` is set by the driver just before. */
  datatype Call = Call(step: int, action: Value, world: World)

  function Bucket(g: Gym, iteration: nat): seq<Entry> {
    if iteration in g.trajectory then g.trajectory[iteration] else []
  }

  /** The first entry that matches. */
  function Cached(entries: seq<Entry>, action: Value): (r: Option<Entry>)
    ensures r.Some? ==> r.value in entries && ValuesMatch(r.value.action, action)
    ensures r == None ==> forall i | 0 <= i < |entries| :: !ValuesMatch(entries[i].action, action)
  {
    if entries == [] then None
    else if ValuesMatch(entries[0].action, action) then Some(entries[0])
    else
      assert forall i | 1 <= i < |entries| :: entries[i] == entries[1..][i - 1];
      Cached(entries[1..], action)
  }

  /** The scenario that a step hands to the runner: this trial alone. */
  function Scenario(trial: Trial, w: World): Env {
    RunnerModel.Env([Test(trial.iterations, trial.iteration, trial.step, map[])], w.dryRun, w.statusCheck, w.answer, w.jobId)
  }

  function IterationAfter(trial: Trial, w: World): nat {
    RunnerModel.Run(Scenario(trial, w), w.rounds).iters[0]
  }

  /** A refused submission ends the process; every other exception of the runner is caught. */
  predicate Exits(trial: Trial, w: World) {
    RunnerModel.Run(Scenario(trial, w), w.rounds).exited
  }

  /** The trial after the runner has returned. */
  function TrialAfter(g: Gym, w: World): Trial {
    if w.hasOutput then g.trial.(iteration := IterationAfter(g.trial, w)) else g.original.(step := g.trial.step)
  }

  function Log(g: Gym, e: Entry): Gym {
    g.(trajectory := g.trajectory[g.trial.iteration := Bucket(g, g.trial.iteration) + [e]])
  }

  /** The applied trial with its bucket set up. */
  function Prepared(g: Gym, c: Call, params: Value): Gym {
    var trial := g.trial.(step := c.step, params := params);
    g.(trial := trial, trajectory := g.trajectory[trial.iteration := Bucket(g, trial.iteration)])
  }

  /** `env.test_run.step = step` and `env.step(action)`. */
  function Step(g: Gym, c: Call): (Gym, Result<Reply>) {
    var w := c.world;
    match w.applied
    case Raised(m) => (g.(trial := g.trial.(step := c.step)), Raised(m))
    case Ok(params) =>
      var g' := Prepared(g, c, params);
      match Cached(Bucket(g', g'.trial.iteration), c.action)
      case Some(e) => (g', Ok(Reply(e.observation, e.reward, false)))
      case None =>
        if !w.allowed then (g', Ok(Reply([-1.0], w.failureReward, true)))
        else if w.placed.Raised? then (g', Raised(w.placed.message))
        else if Exits(g'.trial, w) then (g'.(runs := g'.runs + [c.action]), Raised("SystemExit"))
        else
          var ran := g'.(trial := TrialAfter(g', w), runs := g'.runs + [c.action]);
          match w.outcome
          case Raised(m) => (ran, Raised(m))
          case Ok((observation, reward)) =>
            (Log(ran, Entry(c.step, c.action, reward, observation)), Ok(Reply(observation, reward, false)))
  }

  /** A new environment. */
  function Fresh(trial: Trial): Gym {
    Gym(trial, trial, map[], [])
  }

  // ----- One bucket -----

  predicate Unmatched(entries: seq<Entry>) {
    forall i, j | 0 <= i < j < |entries| :: !ValuesMatch(entries[i].action, entries[j].action)
  }

  /** Everything is logged under the iteration the environment began with, and no action twice. */
  predicate Good(g: Gym) {
    && g.trial.iteration == g.original.iteration
    && (forall k | k in g.trajectory :: k == g.original.iteration)
    && Unmatched(Bucket(g, g.original.iteration))
  }

  function Entries(g: Gym): seq<Entry> {
    Bucket(g, g.original.iteration)
  }

  /** A stepped call ends in the iteration it began in. */
  lemma CallStays(g: Gym, c: Call)
    requires g.trial.iteration == g.original.iteration && c.step > 0
    ensures Step(g, c).0.trial.iteration == g.original.iteration && Step(g, c).0.original == g.original
  {
    if c.world.applied.Ok? {
      var g' := Prepared(g, c, c.world.applied.value);
      SteppedRunsStay(Scenario(g'.trial, c.world), c.world.rounds, 0);
      SteppedExitsIff(g'.trial, c.world);
    }
  }

  /** Whether the call runs the trial, and whether it gets as far as the log. */
  predicate Runs(g: Gym, c: Call) {
    c.world.applied.Ok? && Cached(Entries(g), c.action) == None && c.world.allowed && c.world.placed.Ok?
  }

  /** The one submission of a stepped trial fails. */
  predicate Refused(w: World) {
    !w.dryRun && w.answer(0) == No
  }

  predicate Logs(g: Gym, c: Call) {
    Runs(g, c) && !Refused(c.world) && c.world.outcome.Ok?
  }

  lemma SteppedExitsIff(trial: Trial, w: World)
    requires trial.step > 0
    ensures Exits(trial, w) <==> Refused(w)
  {
    SteppedRunExitsIff(Scenario(trial, w), w.rounds);
  }

  /** What a stepped call does to the log and to the list of runs. */
  lemma CallEffect(g: Gym, c: Call)
    requires Good(g) && c.step > 0
    ensures var g' := Step(g, c).0;
            && Good(g') && g'.original == g.original
            && g'.runs == g.runs + (if Runs(g, c) then [c.action] else [])
            && Entries(g') == Entries(g) +
                 (if Logs(g, c) then [EntryOf(c)] else [])
  {
    CallStays(g, c);
    if c.world.applied.Ok? {
      SteppedExitsIff(Prepared(g, c, c.world.applied.value).trial, c.world);
    }
    if Logs(g, c) {
      assert Entries(Step(g, c).0) == Entries(g) + [EntryOf(c)];
    }
  }

  /** A call whose action is logged answers from the log, whatever the world would say, and runs nothing. */
  lemma LoggedActionIsNotRun(g: Gym, c: Call, i: nat)
    requires Good(g) && c.step > 0 && c.world.applied.Ok?
    requires i < |Entries(g)| && Entries(g)[i].action == c.action
    ensures Step(g, c).1 == Ok(Reply(Entries(g)[i].observation, Entries(g)[i].reward, false))
    ensures Step(g, c).0.runs == g.runs && Entries(Step(g, c).0) == Entries(g)
  {
    CallEffect(g, c);
    MatchIsEquality(Entries(g)[i].action, c.action);
    var e := Cached(Entries(g), c.action).value;
    var k :| 0 <= k < |Entries(g)| && Entries(g)[k] == e;
    MatchIsEquality(e.action, c.action);
    MatchIsEquality(Entries(g)[k].action, Entries(g)[i].action);
    MatchIsEquality(Entries(g)[i].action, Entries(g)[k].action);
  }

  /** Nothing in the log has this action. */
  predicate IsNew(g: Gym, action: Value) {
    forall i | 0 <= i < |Entries(g)| :: Entries(g)[i].action != action
  }

  lemma NewIsNotCached(g: Gym, action: Value)
    ensures IsNew(g, action) <==> Cached(Entries(g), action) == None
  {
    forall i | 0 <= i < |Entries(g)| ensures ValuesMatch(Entries(g)[i].action, action) <==> Entries(g)[i].action == action {
      MatchIsEquality(Entries(g)[i].action, action);
    }
  }

  /** What a new action gets for an answer: the fixed reply that ends the episode when it breaks the constraints,
      the exception of whatever raises, and otherwise what the metrics say. */
  lemma NewActionIsAnswered(g: Gym, c: Call)
    requires Good(g) && c.step > 0 && IsNew(g, c.action)
    ensures var w, r := c.world, Step(g, c).1;
            && (w.applied.Raised? ==> r == Raised(w.applied.message))
            && (w.applied.Ok? && !w.allowed ==> r == Ok(Reply([-1.0], w.failureReward, true)))
            && (w.applied.Ok? && w.allowed && w.placed.Raised? ==> r == Raised(w.placed.message))
            && (w.applied.Ok? && w.allowed && w.placed.Ok? && Refused(w) ==> r == Raised("SystemExit"))
            && (w.applied.Ok? && w.allowed && w.placed.Ok? && !Refused(w) ==>
                  r == match w.outcome
                       case Raised(m) => Raised(m)
                       case Ok((observation, reward)) => Ok(Reply(observation, reward, false)))
  {
    NewIsNotCached(g, c.action);
    if c.world.applied.Ok? {
      SteppedExitsIff(Prepared(g, c, c.world.applied.value).trial, c.world);
    }
  }

  /** The only call that ends an episode: a new action that breaks the constraints. It neither runs nor logs. */
  lemma DoneIff(g: Gym, c: Call)
    requires Good(g) && c.step > 0
    ensures Step(g, c).1.Ok? && Step(g, c).1.value.done <==> c.world.applied.Ok? && IsNew(g, c.action) && !c.world.allowed
    ensures Step(g, c).1.Ok? && Step(g, c).1.value.done ==>
              Step(g, c).0.runs == g.runs && Entries(Step(g, c).0) == Entries(g)
  {
    CallEffect(g, c);
    NewIsNotCached(g, c.action);
    if IsNew(g, c.action) {
      NewActionIsAnswered(g, c);
    }
  }

  /** The parameters afterwards are the applied ones, except that a run without an output directory brings back
      those of the beginning. The step is always the call's. */
  lemma TrialAfterCall(g: Gym, c: Call)
    requires Good(g) && c.step > 0
    ensures var w, t := c.world, Step(g, c).0.trial;
            && t.step == c.step
            && (w.applied.Raised? ==> t == g.trial.(step := c.step))
            && (w.applied.Ok? ==>
                  if Runs(g, c) && !Refused(w) && !w.hasOutput then t == g.original.(step := c.step)
                  else t == g.trial.(step := c.step, params := w.applied.value))
  {
    CallStays(g, c);
    if c.world.applied.Ok? {
      SteppedExitsIff(Prepared(g, c, c.world.applied.value).trial, c.world);
    }
  }

  // ----- Whole sequences -----

  predicate Stepped(calls: seq<Call>) {
    forall k | 0 <= k < |calls| :: calls[k].step > 0
  }

  /** State `k + 1` is what call `k` makes of state `k`. */
  predicate Follows(states: seq<Gym>, calls: seq<Call>, k: nat)
    requires k < |calls| && |states| == |calls| + 1
  {
    states[k + 1] == Step(states[k], calls[k]).0
  }

  /** Any calls, one after the other, on a new environment for `trial`. */
  predicate History(states: seq<Gym>, calls: seq<Call>, trial: Trial) {
    && |states| == |calls| + 1 && states[0] == Fresh(trial)
    && forall k | 0 <= k < |calls| :: Follows(states, calls, k)
  }

  /** Every sequence of stepped calls leaves one bucket in which all actions differ. */
  lemma {:induction false} PlayStaysGood(states: seq<Gym>, calls: seq<Call>, trial: Trial, k: nat)
    requires Stepped(calls) && History(states, calls, trial) && k <= |calls|
    ensures Good(states[k]) && states[k].original == trial
    decreases k
  {
    if k > 0 {
      PlayStaysGood(states, calls, trial, k - 1);
      assert Follows(states, calls, k - 1);
      CallEffect(states[k - 1], calls[k - 1]);
    }
  }

  function EntryOf(c: Call): Entry
    requires c.world.outcome.Ok?
  {
    Entry(c.step, c.action, c.world.outcome.value.1, c.world.outcome.value.0)
  }

  /** What call `k` of a sequence does. */
  lemma CallInPlay(states: seq<Gym>, calls: seq<Call>, trial: Trial, k: nat)
    requires Stepped(calls) && History(states, calls, trial) && k < |calls|
    ensures var g, h, c := states[k], states[k + 1], calls[k];
            && h.runs == g.runs + (if Runs(g, c) then [c.action] else [])
            && Entries(h) == Entries(g) + (if Logs(g, c) then [EntryOf(c)] else [])
  {
    PlayStaysGood(states, calls, trial, k);
    assert Follows(states, calls, k);
    CallEffect(states[k], calls[k]);
  }

  function ActionsOf(entries: seq<Entry>): (r: seq<Value>)
    ensures |r| == |entries|
  {
    seq(|entries|, i requires 0 <= i < |entries| => entries[i].action)
  }

  /** No submission is refused, and no metric or reward computation raises. */
  predicate NoneRaises(calls: seq<Call>) {
    forall k | 0 <= k < |calls| :: !Refused(calls[k].world) && calls[k].world.outcome.Ok?
  }

  /** While metrics and rewards compute, the runner is started exactly once per logged entry, for the
      logged actions in order; so no action is ever run twice. */
  lemma {:induction false} RunsAreTheLog(states: seq<Gym>, calls: seq<Call>, trial: Trial, k: nat)
    requires Stepped(calls) && NoneRaises(calls) && History(states, calls, trial) && k <= |calls|
    ensures states[k].runs == ActionsOf(Entries(states[k]))
    ensures forall i, j | 0 <= i < j < |states[k].runs| :: states[k].runs[i] != states[k].runs[j]
    decreases k
  {
    if k > 0 {
      RunsAreTheLog(states, calls, trial, k - 1);
      CallInPlay(states, calls, trial, k - 1);
    }
    PlayStaysGood(states, calls, trial, k);
    RunsDiffer(states[k]);
  }

  lemma RunsDiffer(g: Gym)
    requires Good(g) && g.runs == ActionsOf(Entries(g))
    ensures forall i, j | 0 <= i < j < |g.runs| :: g.runs[i] != g.runs[j]
  {
    forall i, j | 0 <= i < j < |g.runs| ensures g.runs[i] != g.runs[j] {
      MatchIsEquality(Entries(g)[i].action, Entries(g)[j].action);
    }
  }

  /** Calls among the first `k` that started the runner but then raised. */
  function Raises(states: seq<Gym>, calls: seq<Call>, k: nat): nat
    requires k <= |calls| && |states| == |calls| + 1
  {
    if k == 0 then 0
    else
      Raises(states, calls, k - 1) +
        if Runs(states[k - 1], calls[k - 1]) && !Logs(states[k - 1], calls[k - 1]) then 1 else 0
  }

  /** In general the runner is started once per entry and once per call that raised after its run. */
  lemma {:induction false} RunsAreCounted(states: seq<Gym>, calls: seq<Call>, trial: Trial, k: nat)
    requires Stepped(calls) && History(states, calls, trial) && k <= |calls|
    ensures |states[k].runs| == |Entries(states[k])| + Raises(states, calls, k)
    decreases k
  {
    if k > 0 {
      RunsAreCounted(states, calls, trial, k - 1);
      CallInPlay(states, calls, trial, k - 1);
    }
  }

  /** Entries are never changed or removed. */
  lemma {:induction false} LogGrows(states: seq<Gym>, calls: seq<Call>, trial: Trial, i: nat, k: nat)
    requires Stepped(calls) && History(states, calls, trial) && i <= k <= |calls|
    ensures Entries(states[i]) <= Entries(states[k])
    decreases k
  {
    if i < k {
      LogGrows(states, calls, trial, i, k - 1);
      CallInPlay(states, calls, trial, k - 1);
    }
  }

  /** A call that logs its action answers what it logs. */
  lemma LogsWhatItAnswers(g: Gym, c: Call)
    requires Good(g) && c.step > 0 && Logs(g, c)
    ensures Step(g, c).1 == Ok(Reply(EntryOf(c).observation, EntryOf(c).reward, false))
  {
    SteppedExitsIff(g.trial.(step := c.step, params := c.world.applied.value), c.world);
  }

  /** Once a call has logged its action, every later call with the same action gets the same observation
      and reward without a run. */
  lemma RepeatedActionsRepeatResults(states: seq<Gym>, calls: seq<Call>, trial: Trial, i: nat, j: nat)
    requires Stepped(calls) && History(states, calls, trial) && i < j < |calls|
    requires calls[i].action == calls[j].action && calls[j].world.applied.Ok? && Logs(states[i], calls[i])
    ensures Step(states[j], calls[j]).1 == Step(states[i], calls[i]).1
    ensures Step(states[j], calls[j]).0.runs == states[j].runs
  {
    PlayStaysGood(states, calls, trial, i);
    PlayStaysGood(states, calls, trial, j);
    CallInPlay(states, calls, trial, i);
    LogsWhatItAnswers(states[i], calls[i]);
    LogGrows(states, calls, trial, i + 1, j);
    LoggedActionIsNotRun(states[j], calls[j], |Entries(states[i])|);
  }

  function QuietWorld(params: Value): World {
    World(Ok(params), true, Ok(()), -1.0, true, false, (n: nat) => Yes, (n: nat) => 0, 1, true, Ok(([1.0], 1.0)))
  }

  /** With step 0 the runner may move the trial on, and the entry lands under another iteration than the
      one whose entries were searched. */
  lemma UnsteppedCallMoves(params: Value, action: Value)
    ensures var g := Step(Fresh(Trial(2, 0, 0, params)), Call(0, action, QuietWorld(params))).0;
            Bucket(g, 0) == [] && |Bucket(g, 1)| == 1
  {
    var c := Call(0, action, QuietWorld(params));
    var g := Prepared(Fresh(Trial(2, 0, 0, params)), c, params);
    UnsteppedRunMoves(Scenario(g.trial, c.world));
    assert IterationAfter(g.trial, c.world) == 1 && !Exits(g.trial, c.world);
    assert Bucket(g, 0) == [] && Bucket(g, 1) == [];
  }
}
