/** What a whole `parse_nodes` call does to the allocator: its group specifications are steps of a
    history, so everything that holds of histories holds across calls and inside one. */
module SlurmCalls {
  import opened Basics
  import opened Strings
  import opened SlurmModel
  import opened SlurmHolds
  import opened SlurmSpecs

  /** A well-formed group specification. */
  predicate Asks(spec: string) {
    var parts := Split(spec, ':');
    ':' in spec && |parts| == 3 && WantOf(parts[2]).Some?
  }

  function OpOf(spec: string, exclude: seq<string>, feed: Feed): (op: Op)
    requires Asks(spec)
    ensures op.Request?
  {
    var parts := Split(spec, ':');
    Request(parts[0], parts[1], WantOf(parts[2]).value, exclude, feed.reading, feed.names)
  }

  /** A group specification is one step; any other specification leaves the system alone. */
  lemma SpecIsStep(sys: System, spec: string, exclude: seq<string>, feed: Feed)
    ensures Asks(spec) ==> ParseSpec(sys, spec, exclude, feed) == Step(sys, OpOf(spec, exclude, feed))
    ensures Asks(spec) && FeedFits(sys, spec, exclude, feed) ==> Fits(sys, OpOf(spec, exclude, feed))
    ensures !Asks(spec) ==> ParseSpec(sys, spec, exclude, feed).0 == sys
  {
  }

  // ----- A call continues a history -----

  lemma HistoryNext(states: seq<System>, ops: seq<Op>, op: Op)
    requires History(states, ops) && Fits(states[|ops|], op)
    ensures History(states + [Step(states[|ops|], op).0], ops + [op])
  {
    var states', ops' := states + [Step(states[|ops|], op).0], ops + [op];
    forall k | 0 <= k < |ops'| ensures Follows(states', ops', k) {
      if k < |ops| {
        assert Follows(states, ops, k);
      }
    }
  }

  /** The longer history starts with the shorter one and goes on with requests only. */
  ghost predicate Continues(states: seq<System>, ops: seq<Op>, states': seq<System>, ops': seq<Op>) {
    History(states', ops') && states <= states' && ops <= ops' && forall k | |ops| <= k < |ops'| :: ops'[k].Request?
  }

  /** The first `n` specifications of a call on the last state of a history leave the last state of a
      longer history. */
  lemma {:induction false} CallContinuesHistory(states: seq<System>, ops: seq<Op>, c: Call, specs: seq<string>,
                                                exclude: seq<string>, n: nat)
    returns (states': seq<System>, ops': seq<Op>)
    requires History(states, ops) && Reaches(c, states[|ops|], specs, exclude) && n <= |c.shares|
    ensures Continues(states, ops, states', ops') && states'[|ops'|] == c.states[n]
    decreases n
  {
    if n == 0 {
      states', ops' := states, ops;
    } else {
      var spec, feed := specs[n - 1], c.feeds[n - 1];
      var states1, ops1 := CallContinuesHistory(states, ops, c, specs, exclude, n - 1);
      assert SpecAt(c, specs, exclude, n - 1);
      SpecIsStep(c.states[n - 1], spec, exclude, feed);
      if Asks(spec) {
        HistoryNext(states1, ops1, OpOf(spec, exclude, feed));
        states', ops' := states1 + [c.states[n]], ops1 + [OpOf(spec, exclude, feed)];
      } else {
        states', ops' := states1, ops1;
      }
    }
  }

  // ----- Inside one call -----

  lemma SpecKeeps(sys: System, spec: string, exclude: seq<string>, feed: Feed, part: string, n: string)
    requires Consistent(sys) && FeedFits(sys, spec, exclude, feed)
    ensures Consistent(ParseSpec(sys, spec, exclude, feed).0)
    ensures Held(sys, part, n) ==> Held(ParseSpec(sys, spec, exclude, feed).0, part, n)
  {
    SpecIsStep(sys, spec, exclude, feed);
    if Asks(spec) {
      StepKeeps(sys, OpOf(spec, exclude, feed));
      if Held(sys, part, n) {
        HoldLasts(sys, OpOf(spec, exclude, feed), part, n);
      }
    }
  }

  lemma {:induction false} CallKeeps(c: Call, sys: System, specs: seq<string>, exclude: seq<string>,
                                     i: nat, j: nat, part: string, n: string)
    requires Reaches(c, sys, specs, exclude) && i <= j <= |c.shares| && Consistent(c.states[i])
    ensures Consistent(c.states[j]) && (Held(c.states[i], part, n) ==> Held(c.states[j], part, n))
    decreases j
  {
    if i < j {
      CallKeeps(c, sys, specs, exclude, i, j - 1, part, n);
      assert SpecAt(c, specs, exclude, j - 1);
      SpecKeeps(c.states[j - 1], specs[j - 1], exclude, c.feeds[j - 1], part, n);
    }
  }

  lemma HandedOutInCall(c: Call, sys: System, specs: seq<string>, exclude: seq<string>, i: nat, n: string)
    requires Reaches(c, sys, specs, exclude) && i < |c.shares| && Consistent(c.states[i])
    requires Asks(specs[i]) && n in Answer(c.shares[i])
    ensures Held(c.states[i + 1], Split(specs[i], ':')[0], n) && Consistent(c.states[i + 1])
  {
    assert SpecAt(c, specs, exclude, i);
    SpecIsStep(c.states[i], specs[i], exclude, c.feeds[i]);
    HandedOutIsHeld(c.states[i], OpOf(specs[i], exclude, c.feeds[i]), n);
    SpecKeeps(c.states[i], specs[i], exclude, c.feeds[i], "", n);
  }

  lemma HeldStaysOut(c: Call, sys: System, specs: seq<string>, exclude: seq<string>, j: nat, n: string)
    requires Reaches(c, sys, specs, exclude) && j < |c.shares| && Consistent(c.states[j])
    requires Asks(specs[j]) && WantOf(Split(specs[j], ':')[2]) == Some(MaxAvail)
    requires Held(c.states[j], Split(specs[j], ':')[0], n)
    ensures n !in Answer(c.shares[j])
  {
    assert SpecAt(c, specs, exclude, j);
    SpecIsStep(c.states[j], specs[j], exclude, c.feeds[j]);
    if n in Answer(c.shares[j]) {
      HeldNodesComeLast(c.states[j], OpOf(specs[j], exclude, c.feeds[j]), n);
    }
  }

  /** In one call, a `max_avail` specification contributes no node that an earlier specification for the
      same partition was given. */
  lemma MaxAvailSpecsAreDisjoint(c: Call, sys: System, specs: seq<string>, exclude: seq<string>, i: nat, j: nat, n: string)
    requires Consistent(sys) && Reaches(c, sys, specs, exclude) && i < j < |c.shares| && Asks(specs[i]) && Asks(specs[j])
    requires Split(specs[i], ':')[0] == Split(specs[j], ':')[0] && WantOf(Split(specs[j], ':')[2]) == Some(MaxAvail)
    ensures n in Answer(c.shares[i]) ==> n !in Answer(c.shares[j])
  {
    var part := Split(specs[i], ':')[0];
    CallKeeps(c, sys, specs, exclude, 0, i, part, n);
    if n in Answer(c.shares[i]) {
      HandedOutInCall(c, sys, specs, exclude, i, n);
      CallKeeps(c, sys, specs, exclude, i + 1, j, part, n);
      HeldStaysOut(c, sys, specs, exclude, j, n);
    }
  }
}
