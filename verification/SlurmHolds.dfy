/** What the allocator guarantees over whole histories: holds stand, requests keep clear of them, a
    failed request leaves no trace, and releases give nodes back. */
module SlurmHolds {
  import opened Basics
  import opened Strings
  import opened NodeList
  import NodeListNotation
  import opened SlurmModel
  import opened SlurmUpdates

  ghost predicate Consistent(sys: System) {
    WellFormed(sys) && HoldsArePlaced(sys)
  }

  // ----- The third pass -----

  lemma HeldIsWritten(sys: System, r: Reading, part: string, name: string)
    requires WellFormed(sys) && Enumerates(r.holds, sys.holds) && Held(sys, part, name)
    ensures LastMatch(r.holds, part, name).Some? && LastMatch(r.holds, part, name).value.state == Allocated
  {
    var h :| h in sys.holds && h.partition == part && h.name == name;
    assert h in r.holds;
    var k :| 0 <= k < |r.holds| && r.holds[k] == h;
    assert About(r.holds[k], part, name);
  }

  /** A complete update makes every hold stand, whatever the states were before and whatever the
      cluster says. */
  lemma UpdateRestoresHolds(sys: System, r: Reading)
    requires WellFormed(sys) && Enumerates(r.holds, sys.holds) && r.sinfo.Ok? && r.squeue.Ok?
    ensures HoldsStand(Update(sys, r).0)
  {
    var after := Update(sys, r).0;
    forall i, k | 0 <= i < |after.parts| && 0 <= k < |after.parts[i].nodes|
                  && Held(after, after.parts[i].name, after.parts[i].nodes[k].name)
      ensures after.parts[i].nodes[k].state == Allocated
    {
      UpdateIsLastWriterWins(sys, r, i);
      var n := after.parts[i].nodes[k];
      assert Says(n, sys.parts[i].nodes, k, Writers(r));
      assert Held(sys, n.partition, n.name);
      HeldIsWritten(sys, r, n.partition, n.name);
      LastMatchConcat(r.sinfo.value + r.squeue.value, r.holds, n.partition, n.name);
    }
  }

  /** Every node that the hold is on is allocated. */
  predicate Upheld(sys: System, h: Node) {
    forall i, k | 0 <= i < |sys.parts| && 0 <= k < |sys.parts[i].nodes| ::
      sys.parts[i].name == h.partition && sys.parts[i].nodes[k].name == h.name ==> sys.parts[i].nodes[k].state == Allocated
  }

  lemma StandIffUpheld(sys: System)
    ensures HoldsStand(sys) <==> forall h | h in sys.holds :: Upheld(sys, h)
  {
    if HoldsStand(sys) {
      forall h | h in sys.holds ensures Upheld(sys, h) {
        forall i, k | 0 <= i < |sys.parts| && 0 <= k < |sys.parts[i].nodes|
                      && sys.parts[i].name == h.partition && sys.parts[i].nodes[k].name == h.name
          ensures sys.parts[i].nodes[k].state == Allocated
        {
          assert Held(sys, sys.parts[i].name, sys.parts[i].nodes[k].name);
        }
      }
    }
  }

  /** In a consistent system the hold is on one node. */
  lemma UpheldAt(sys: System, h: Node, i: nat, k: nat)
    requires WellFormed(sys) && i < |sys.parts| && k < |sys.parts[i].nodes|
    requires sys.parts[i].name == h.partition && sys.parts[i].nodes[k].name == h.name
    ensures Upheld(sys, h) <==> sys.parts[i].nodes[k].state == Allocated
  {
    assert PartOk(sys.parts[i]);
  }

  /** A hold that the entries do not contradict. */
  predicate Agrees(entries: seq<Node>, h: Node) {
    var m := LastMatch(entries, h.partition, h.name);
    m.Some? ==> m.value.state == Allocated
  }

  /** After an update that could not read squeue a held node is allocated if its last sinfo entry says
      so, or it has none and was allocated before; otherwise its hold has fallen. */
  lemma HalfUpdate(sys: System, r: Reading, h: Node)
    requires Consistent(sys) && r.sinfo.Ok? && r.squeue.Raised? && h in sys.holds
    ensures var m := LastMatch(r.sinfo.value, h.partition, h.name);
            Upheld(Update(sys, r).0, h) <==> if m.Some? then m.value.state == Allocated else Upheld(sys, h)
  {
    var after := Update(sys, r).0;
    var i :| 0 <= i < |sys.parts| && sys.parts[i].name == h.partition && Has(sys.parts[i].nodes, h.name);
    var k :| 0 <= k < |sys.parts[i].nodes| && sys.parts[i].nodes[k].name == h.name;
    AbsorbWrites(sys.parts[i], r.sinfo.value, true);
    UpdateKeepsWellFormed(sys, r);
    assert Says(after.parts[i].nodes[k], sys.parts[i].nodes, k, r.sinfo.value);
    assert PartOk(after.parts[i]);
    UpheldAt(sys, h, i, k);
    UpheldAt(after, h, i, k);
  }

  /** So a hold can fall: one held node, sinfo calls it idle, squeue cannot be read. */
  lemma HoldCanFall()
    ensures var node := Node("n", "p", Allocated, "N/A");
            var sys := System("s", [Partition("p", [], [node])], {node});
            var r := Reading(Ok([node.(state := Idle)]), Raised("unreadable"), []);
            Consistent(sys) && HoldsStand(sys) && !HoldsStand(Update(sys, r).0) && Update(sys, r).1.Raised?
  {
    var node := Node("n", "p", Allocated, "N/A");
    var sys := System("s", [Partition("p", [], [node])], {node});
    var r := Reading(Ok([node.(state := Idle)]), Raised("unreadable"), []);
    assert sys.parts[0].nodes[0].name == "n";
    assert Has(sys.parts[0].nodes, node.name) && sys.parts[0].name == node.partition;
    assert About(r.sinfo.value[0], "p", "n");
    HalfUpdate(sys, r, node);
    StandIffUpheld(Update(sys, r).0);
  }

  // ----- Requests -----

  /** In the group, not excluded, and in that state. */
  predicate Eligible(nodes: seq<Node>, names: seq<string>, exclude: seq<string>, state: NodeState, n: string) {
    n in names && n !in exclude && StateOf(nodes, n) == state
  }

  /** A pool lists the eligible names, each once. */
  lemma {:induction false} PoolIsEligible(nodes: seq<Node>, names: seq<string>, exclude: seq<string>, state: NodeState)
    requires Distinct(names)
    ensures var pool := Pool(nodes, names, exclude, state);
            && Distinct(pool) && (forall n :: n in pool <==> Eligible(nodes, names, exclude, state, n))
            && forall i | 0 <= i < |pool| :: StateOf(nodes, pool[i]) == state
    decreases |names|
  {
    if names != [] {
      var front := names[..|names| - 1];
      var last := names[|names| - 1];
      PoolIsEligible(nodes, front, exclude, state);
      assert names == front + [last];
      assert forall k | 0 <= k < |front| :: front[k] == names[k];
      assert Pool(nodes, names, exclude, state) ==
             Pool(nodes, front, exclude, state) + if Eligible(nodes, names, exclude, state, last) then [last] else [];
      assert last !in Pool(nodes, front, exclude, state);
    }
  }

  lemma DistinctConcat<T>(a: seq<T>, b: seq<T>)
    requires Distinct(a) && Distinct(b) && forall x | x in a :: x !in b
    ensures Distinct(a + b) && forall x :: x in a + b <==> x in a || x in b
  {
    forall i, j | 0 <= i < j < |a + b| ensures (a + b)[i] != (a + b)[j] {
      if i < |a| <= j {
        assert a[i] in a && b[j - |a|] in b;
      }
    }
  }

  /** All that may be handed out, in the order of preference. */
  function Queue(nodes: seq<Node>, names: seq<string>, exclude: seq<string>): seq<string> {
    Pool(nodes, names, exclude, Idle) + Pool(nodes, names, exclude, Completing)
    + Pool(nodes, names, exclude, Allocated) + Pool(nodes, names, exclude, Reserved)
  }

  function Rank(state: NodeState): nat {
    match state
    case Idle => 0
    case Completing => 1
    case Allocated => 2
    case Reserved => 3
    case _ => 4
  }

  /** The queue lists every name with one of the four states once, better states first. */
  lemma QueueIsRanked(nodes: seq<Node>, names: seq<string>, exclude: seq<string>)
    requires Distinct(names)
    ensures var q := Queue(nodes, names, exclude);
            && Distinct(q)
            && (forall n :: n in q <==> n in names && n !in exclude && Rank(StateOf(nodes, n)) < 4)
            && forall i, j | 0 <= i < j < |q| :: Rank(StateOf(nodes, q[i])) <= Rank(StateOf(nodes, q[j]))
  {
    var a, b := Pool(nodes, names, exclude, Idle), Pool(nodes, names, exclude, Completing);
    var c, d := Pool(nodes, names, exclude, Allocated), Pool(nodes, names, exclude, Reserved);
    PoolIsEligible(nodes, names, exclude, Idle);
    PoolIsEligible(nodes, names, exclude, Completing);
    PoolIsEligible(nodes, names, exclude, Allocated);
    PoolIsEligible(nodes, names, exclude, Reserved);
    DistinctConcat(a, b);
    DistinctConcat(a + b, c);
    DistinctConcat(a + b + c, d);
    RankedConcat(nodes, a, b, 0, 1);
    RankedConcat(nodes, a + b, c, 1, 2);
    RankedConcat(nodes, a + b + c, d, 2, 3);
  }

  predicate Ranked(nodes: seq<Node>, q: seq<string>, most: nat) {
    && (forall i | 0 <= i < |q| :: Rank(StateOf(nodes, q[i])) <= most)
    && forall i, j | 0 <= i < j < |q| :: Rank(StateOf(nodes, q[i])) <= Rank(StateOf(nodes, q[j]))
  }

  lemma RankedConcat(nodes: seq<Node>, a: seq<string>, b: seq<string>, m: nat, n: nat)
    requires Ranked(nodes, a, m) && m <= n && forall i | 0 <= i < |b| :: Rank(StateOf(nodes, b[i])) == n
    ensures Ranked(nodes, a + b, n)
  {
  }

  /** What a request for `want` may hand out, given the states after its update. */
  ghost predicate Deserved(nodes: seq<Node>, names: seq<string>, exclude: seq<string>, want: Want, answer: seq<string>) {
    && Distinct(answer)
    && (forall n | n in answer :: n in names && n !in exclude && Rank(StateOf(nodes, n)) < 4)
    && (want.MaxAvail? ==> forall n :: n in answer <==>
          n in names && n !in exclude && StateOf(nodes, n) in {Idle, Completing, Reserved})
    && (want.Count? && answer != [] ==> |answer| == want.n)
    && (want.Count? && answer == [] && want.n > 0 ==> |Queue(nodes, names, exclude)| < want.n)
    && (want.Count? ==> forall n, m | n in answer && m in names && m !in exclude && m !in answer ::
          Rank(StateOf(nodes, n)) <= Rank(StateOf(nodes, m)))
    && (want.Nonsense? ==> answer == [])
  }

  function Answer(r: Result<seq<string>>): seq<string> {
    if r.Ok? then r.value else []
  }

  lemma MaxAvailDeserved(nodes: seq<Node>, names: seq<string>, exclude: seq<string>)
    requires Distinct(names)
    ensures Deserved(nodes, names, exclude, MaxAvail, Answer(Pick(nodes, names, exclude, MaxAvail)))
  {
    var a, b := Pool(nodes, names, exclude, Idle), Pool(nodes, names, exclude, Completing);
    var d := Pool(nodes, names, exclude, Reserved);
    PoolIsEligible(nodes, names, exclude, Idle);
    PoolIsEligible(nodes, names, exclude, Completing);
    PoolIsEligible(nodes, names, exclude, Reserved);
    DistinctConcat(a, b);
    DistinctConcat(a + b, d);
    assert Answer(Pick(nodes, names, exclude, MaxAvail)) == a + b + d;
  }

  lemma CountDeserved(nodes: seq<Node>, names: seq<string>, exclude: seq<string>, n: int)
    requires Distinct(names)
    ensures Deserved(nodes, names, exclude, Count(n), Answer(Pick(nodes, names, exclude, Count(n))))
  {
    QueueIsRanked(nodes, names, exclude);
    var q, answer := Queue(nodes, names, exclude), Answer(Pick(nodes, names, exclude, Count(n)));
    if 0 < n <= |q| {
      assert answer == q[..n];
      forall x, y | x in answer && y in names && y !in exclude && y !in answer
        ensures Rank(StateOf(nodes, x)) <= Rank(StateOf(nodes, y))
      {
        if Rank(StateOf(nodes, y)) < 4 {
          var i :| 0 <= i < n && answer[i] == x;
          var j :| 0 <= j < |q| && q[j] == y;
          assert q[i] == x && forall k | 0 <= k < n :: q[k] in answer;
        }
      }
    } else {
      assert answer == [];
    }
  }

  /** The choice meets the request: nothing twice, nothing excluded; `max_avail` takes all that is free;
      a count is met exactly or not at all, and better states are used up first. */
  lemma PickIsDeserved(nodes: seq<Node>, names: seq<string>, exclude: seq<string>, want: Want)
    requires Distinct(names)
    ensures Deserved(nodes, names, exclude, want, Answer(Pick(nodes, names, exclude, want)))
  {
    match want
    case MaxAvail => MaxAvailDeserved(nodes, names, exclude);
    case Count(n) => CountDeserved(nodes, names, exclude, n);
    case Nonsense =>
  }

  // ----- What a request changes -----

  /** An allocated copy of a node of one of the partitions. */
  predicate IsCopy(parts: seq<Partition>, h: Node) {
    exists i, k | 0 <= i < |parts| && 0 <= k < |parts[i].nodes| :: h == parts[i].nodes[k].(state := Allocated)
  }

  /** Exactly the nodes handed out become allocated, and exactly they become held besides what was. */
  ghost predicate Granted(before: System, after: System, part: string, answer: seq<string>) {
    && after.name == before.name && |after.parts| == |before.parts|
    && (forall i | 0 <= i < |before.parts| ::
          && after.parts[i].name == before.parts[i].name && after.parts[i].groups == before.parts[i].groups
          && |after.parts[i].nodes| == |before.parts[i].nodes|)
    && (forall i, k | 0 <= i < |before.parts| && 0 <= k < |before.parts[i].nodes| ::
          var n := before.parts[i].nodes[k];
          after.parts[i].nodes[k] == if n.partition == part && n.name in answer then n.(state := Allocated) else n)
    && (forall h :: h in after.holds <==>
          (h in before.holds || (h.partition == part && h.name in answer && IsCopy(before.parts, h))))
  }

  lemma TakeGrants(sys: System, i: nat, names: seq<string>)
    requires WellFormed(sys) && i < |sys.parts|
    ensures Granted(sys, Take(sys, i, names), sys.parts[i].name, names)
  {
    var after, part := Take(sys, i, names), sys.parts[i];
    forall h | h in after.holds && h !in sys.holds
      ensures h.partition == part.name && h.name in names
      ensures IsCopy(sys.parts, h)
    {
      var k :| 0 <= k < |part.nodes| && part.nodes[k].name in names && h == part.nodes[k].(state := Allocated);
      assert h == sys.parts[i].nodes[k].(state := Allocated);
    }
    forall h | IsCopy(sys.parts, h) && h.partition == part.name && h.name in names
      ensures h in after.holds
    {
      var j, k :| 0 <= j < |sys.parts| && 0 <= k < |sys.parts[j].nodes|
                  && h == sys.parts[j].nodes[k].(state := Allocated);
      assert PartOk(sys.parts[j]) && j == i;
      assert h in Copies(part.nodes, names);
    }
    forall j, k | 0 <= j < |sys.parts| && 0 <= k < |sys.parts[j].nodes|
      ensures var n := sys.parts[j].nodes[k];
              after.parts[j].nodes[k] == if n.partition == part.name && n.name in names then n.(state := Allocated) else n
    {
      assert PartOk(sys.parts[j]);
    }
  }

  lemma NothingGranted(sys: System, part: string)
    ensures Granted(sys, sys, part, [])
  {
  }

  /** Every request, after its update, grants exactly what it answers; a request that raises or
      answers with no nodes leaves everything as the update left it. */
  lemma ServeGrants(sys: System, part: string, group: string, want: Want, exclude: seq<string>, names: seq<string>)
    requires WellFormed(sys)
    ensures var (after, answer) := Serve(sys, part, group, want, exclude, names);
            && Granted(sys, after, part, Answer(answer))
            && (Answer(answer) == [] ==> after == sys)
  {
    var (after, answer) := Serve(sys, part, group, want, exclude, names);
    var i := PartAt(sys.parts, part);
    if Answer(answer) == [] {
      NothingGranted(sys, part);
      if i >= 0 {
        assert Mark(sys.parts[i].nodes, []) == sys.parts[i].nodes;
        assert Copies(sys.parts[i].nodes, []) == {};
        assert Take(sys, i, []) == sys;
      }
    } else {
      TakeGrants(sys, i, answer.value);
    }
  }

  // ----- Histories -----

  lemma UpdateKeepsPlaced(sys: System, r: Reading)
    requires Consistent(sys)
    ensures Consistent(Update(sys, r).0)
  {
    var after := Update(sys, r).0;
    UpdateKeepsWellFormed(sys, r);
    forall h | h in after.holds
      ensures exists i | 0 <= i < |after.parts| :: after.parts[i].name == h.partition && Has(after.parts[i].nodes, h.name)
    {
      var i :| 0 <= i < |sys.parts| && sys.parts[i].name == h.partition && Has(sys.parts[i].nodes, h.name);
      if r.sinfo.Ok? {
        var p1 := Absorb(sys.parts[i], r.sinfo.value, true);
        AbsorbNames(sys.parts[i], r.sinfo.value, true, h.name);
        if r.squeue.Ok? {
          AbsorbNames(p1, r.squeue.value, false, h.name);
          AbsorbNames(Absorb(p1, r.squeue.value, false), r.holds, false, h.name);
        }
      }
      assert after.parts[i].name == h.partition && Has(after.parts[i].nodes, h.name);
    }
  }

  lemma HasByName(a: seq<Node>, b: seq<Node>, name: string)
    requires |a| == |b| && (forall k | 0 <= k < |a| :: a[k].name == b[k].name) && Has(a, name)
    ensures Has(b, name)
  {
    var k :| 0 <= k < |a| && a[k].name == name;
    assert b[k].name == name;
  }

  lemma GrantKeepsWellFormed(before: System, after: System, part: string, answer: seq<string>)
    requires WellFormed(before) && Granted(before, after, part, answer)
    ensures WellFormed(after)
  {
    forall i | 0 <= i < |after.parts| ensures PartOk(after.parts[i]) {
      assert PartOk(before.parts[i]);
      forall k | 0 <= k < |after.parts[i].nodes|
        ensures after.parts[i].nodes[k].name == before.parts[i].nodes[k].name
        ensures after.parts[i].nodes[k].partition == before.parts[i].nodes[k].partition {}
    }
  }

  lemma GrantKeeps(before: System, after: System, part: string, answer: seq<string>)
    requires Consistent(before) && Granted(before, after, part, answer)
    ensures Consistent(after) && (HoldsStand(before) ==> HoldsStand(after))
  {
    GrantKeepsWellFormed(before, after, part, answer);
    GrantKeepsPlaced(before, after, part, answer);
    if HoldsStand(before) {
      GrantKeepsStand(before, after, part, answer);
    }
  }

  /** The partition of a hold after a grant. */
  lemma PlaceOf(before: System, h: Node) returns (i: nat)
    requires Consistent(before) && (h in before.holds || IsCopy(before.parts, h))
    ensures i < |before.parts| && before.parts[i].name == h.partition && Has(before.parts[i].nodes, h.name)
  {
    if h in before.holds {
      i :| 0 <= i < |before.parts| && before.parts[i].name == h.partition && Has(before.parts[i].nodes, h.name);
    } else {
      var k: nat;
      i, k :| 0 <= i < |before.parts| && 0 <= k < |before.parts[i].nodes|
              && h == before.parts[i].nodes[k].(state := Allocated);
      assert PartOk(before.parts[i]);
    }
  }

  lemma GrantKeepsPlaced(before: System, after: System, part: string, answer: seq<string>)
    requires Consistent(before) && Granted(before, after, part, answer)
    ensures HoldsArePlaced(after)
  {
    forall h | h in after.holds
      ensures exists i | 0 <= i < |after.parts| :: after.parts[i].name == h.partition && Has(after.parts[i].nodes, h.name)
    {
      var i := PlaceOf(before, h);
      HasByName(before.parts[i].nodes, after.parts[i].nodes, h.name);
      assert after.parts[i].name == h.partition;
    }
  }

  lemma GrantKeepsStand(before: System, after: System, part: string, answer: seq<string>)
    requires Consistent(before) && Granted(before, after, part, answer) && HoldsStand(before)
    ensures HoldsStand(after)
  {
    forall i, k | 0 <= i < |after.parts| && 0 <= k < |after.parts[i].nodes|
                  && Held(after, after.parts[i].name, after.parts[i].nodes[k].name)
      ensures after.parts[i].nodes[k].state == Allocated
    {
      var n := before.parts[i].nodes[k];
      assert PartOk(before.parts[i]);
      var h :| h in after.holds && h.partition == after.parts[i].name && h.name == n.name;
      if h in before.holds {
        assert Held(before, before.parts[i].name, n.name);
      }
    }
  }

  /** The names that the end of a job gives back. */
  function Released(op: Op): seq<string> {
    if op.Release? then Answer(Parsed(Without(Strip(op.spec), '|'))) else []
  }

  /** The end of a job gives back exactly the listed names, in every partition, and touches no state. */
  lemma ReleaseIsByName(sys: System, op: Op, part: string, name: string)
    requires op.Release?
    ensures Held(Step(sys, op).0, part, name) <==> Held(sys, part, name) && name !in Released(op)
    ensures Step(sys, op).0.parts == sys.parts && Step(sys, op).0.holds <= sys.holds
  {
    if Held(sys, part, name) && name !in Released(op) {
      var h :| h in sys.holds && h.partition == part && h.name == name;
      assert h in Step(sys, op).0.holds;
    }
  }

  /** sacct prints a node list with a bar and spaces around it: the names of the node list are released, or the
      release raises, and changes nothing, when it cannot be read. */
  lemma ReleaseReadsList(sys: System, op: Op, before: string, list: string, after: string)
    requires op.Release? && op.spec == before + (list + "|") + after
    requires NodeListNotation.Trimmed(list) && '|' !in list
    requires (forall i | 0 <= i < |before| :: IsSpace(before[i])) && (forall i | 0 <= i < |after| :: IsSpace(after[i]))
    ensures Released(op) == Answer(Parsed(list)) && (Step(sys, op).1.Raised? <==> Parsed(list).Raised?)
    ensures Step(sys, op).1.Raised? ==> Step(sys, op).0 == sys
  {
    assert !IsSpace('|');
    NodeListNotation.StripSpaces(before, list + "|", after);
    WithoutNone(list, '|', "|");
    assert Without("|", '|') == [];
    assert list + [] == list;
  }

  predicate ReadsHalf(op: Op) {
    !op.Release? && op.reading.sinfo.Ok? && op.reading.squeue.Raised?
  }

  lemma StepKeeps(sys: System, op: Op)
    requires Consistent(sys) && Fits(sys, op)
    ensures Consistent(Step(sys, op).0)
    ensures ReadsAll(op) || (HoldsStand(sys) && !ReadsHalf(op)) ==> HoldsStand(Step(sys, op).0)
  {
    if op.Release? {
      forall i, k | 0 <= i < |sys.parts| && 0 <= k < |sys.parts[i].nodes| {
        ReleaseIsByName(sys, op, sys.parts[i].name, sys.parts[i].nodes[k].name);
      }
    } else {
      var s := Update(sys, op.reading).0;
      UpdateKeepsPlaced(sys, op.reading);
      if ReadsAll(op) {
        UpdateRestoresHolds(sys, op.reading);
        if op.Request? {
          ServeGrants(s, op.part, op.group, op.want, op.exclude, op.names);
          GrantKeeps(s, Step(sys, op).0, op.part, Answer(Step(sys, op).1));
        }
      }
    }
  }

  /** What sinfo has said in the updates that were cut off after it, since the last complete one and
      before operation `k`. */
  function SinfoSince(ops: seq<Op>, k: nat): seq<Node>
    requires k <= |ops|
  {
    if k == 0 || ReadsAll(ops[k - 1]) then []
    else SinfoSince(ops, k - 1) + if ReadsHalf(ops[k - 1]) then ops[k - 1].reading.sinfo.value else []
  }

  /** The holds that stand are those that `entries` do not contradict. */
  predicate StandBy(sys: System, entries: seq<Node>) {
    forall h | h in sys.holds :: Upheld(sys, h) <==> Agrees(entries, h)
  }

  lemma CompleteStands(sys: System, op: Op)
    requires Consistent(sys) && Fits(sys, op) && ReadsAll(op)
    ensures StandBy(Step(sys, op).0, [])
  {
    StepKeeps(sys, op);
    StandIffUpheld(Step(sys, op).0);
  }

  lemma HalfStands(sys: System, op: Op, entries: seq<Node>)
    requires Consistent(sys) && ReadsHalf(op) && StandBy(sys, entries)
    ensures StandBy(Step(sys, op).0, entries + op.reading.sinfo.value)
  {
    var sinfo, after := op.reading.sinfo.value, Step(sys, op).0;
    assert after == Update(sys, op.reading).0;
    UpdateKeepsWellFormed(sys, op.reading);
    forall h | h in after.holds ensures Upheld(after, h) <==> Agrees(entries + sinfo, h) {
      HalfUpdate(sys, op.reading, h);
      LastMatchConcat(entries, sinfo, h.partition, h.name);
    }
  }

  /** An unreadable sinfo changes nothing, and a release only ends holds. */
  lemma IdleStands(sys: System, op: Op, entries: seq<Node>)
    requires StandBy(sys, entries) && !ReadsAll(op) && !ReadsHalf(op)
    ensures StandBy(Step(sys, op).0, entries)
  {
    if op.Release? {
      ReleaseIsByName(sys, op, "", "");
      forall h | h in Step(sys, op).0.holds ensures Upheld(Step(sys, op).0, h) <==> Agrees(entries, h) {
        assert Upheld(sys, h) <==> Agrees(entries, h);
      }
    }
  }

  lemma NextStands(states: seq<System>, ops: seq<Op>, k: nat)
    requires History(states, ops) && k < |ops| && Consistent(states[k]) && StandBy(states[k], SinfoSince(ops, k))
    ensures Consistent(states[k + 1]) && StandBy(states[k + 1], SinfoSince(ops, k + 1))
  {
    assert Follows(states, ops, k);
    StepKeeps(states[k], ops[k]);
    if ReadsAll(ops[k]) {
      CompleteStands(states[k], ops[k]);
    } else if ReadsHalf(ops[k]) {
      HalfStands(states[k], ops[k], SinfoSince(ops, k));
    } else {
      IdleStands(states[k], ops[k], SinfoSince(ops, k));
      assert SinfoSince(ops, k) + [] == SinfoSince(ops, k);
    }
  }

  /** Over every history that starts without holds, whatever sinfo and squeue say: names stay unique,
      every hold is on a node of its partition, and a held node is allocated exactly when no sinfo output
      of an update cut off since the last complete one has last said otherwise of it. */
  lemma {:induction false} HoldsStandForever(states: seq<System>, ops: seq<Op>, k: nat)
    requires History(states, ops) && k <= |ops|
    ensures Consistent(states[k]) && StandBy(states[k], SinfoSince(ops, k))
    decreases k
  {
    if k > 0 {
      HoldsStandForever(states, ops, k - 1);
      NextStands(states, ops, k - 1);
    }
  }

  /** In particular all holds stand right after every operation whose update was complete. */
  lemma AllStandWhenRead(states: seq<System>, ops: seq<Op>, k: nat)
    requires History(states, ops) && k < |ops| && ReadsAll(ops[k])
    ensures HoldsStand(states[k + 1])
  {
    HoldsStandForever(states, ops, k + 1);
    StandIffUpheld(states[k + 1]);
  }

  // ----- Held nodes and later requests -----

  lemma NodeState(nodes: seq<Node>, n: string)
    requires StateOf(nodes, n) != Unknown
    ensures exists k :: 0 <= k < |nodes| && nodes[k].name == n && nodes[k].state == StateOf(nodes, n)
  {
    assert nodes[Find(nodes, n)].name == n;
  }

  /** The nodes a request chooses from, in the state after its update. */
  function Seen(sys: System, op: Op): seq<Node>
    requires op.Request?
  {
    var s := Update(sys, op.reading).0;
    var i := PartAt(s.parts, op.part);
    if i < 0 then [] else s.parts[i].nodes
  }

  lemma UpdateKeepsShape(sys: System, r: Reading)
    ensures |Update(sys, r).0.parts| == |sys.parts|
    ensures forall i | 0 <= i < |sys.parts| ::
              Update(sys, r).0.parts[i].name == sys.parts[i].name && Update(sys, r).0.parts[i].groups == sys.parts[i].groups
    ensures Readable(Update(sys, r).0.parts) == Readable(sys.parts)
  {
  }

  lemma PartAtByNames(a: seq<Partition>, b: seq<Partition>, name: string)
    requires |a| == |b| && forall i | 0 <= i < |a| :: a[i].name == b[i].name
    ensures PartAt(a, name) == PartAt(b, name)
  {
  }

  /** The group a request names exists, and all node lists can be read. */
  predicate Served(sys: System, op: Op)
    requires op.Request?
  {
    Readable(sys.parts) && PartAt(sys.parts, op.part) >= 0 && GroupAt(sys.parts[PartAt(sys.parts, op.part)].groups, op.group) >= 0
  }

  lemma ServedAfterUpdate(sys: System, op: Op)
    requires op.Request?
    ensures var s := Update(sys, op.reading).0;
            PartAt(s.parts, op.part) == PartAt(sys.parts, op.part) && (Served(s, op) <==> Served(sys, op))
  {
    UpdateKeepsShape(sys, op.reading);
    PartAtByNames(sys.parts, Update(sys, op.reading).0.parts, op.part);
  }

  /** A request raises exactly when its update does, some node list cannot be read, or the partition or the
      group does not exist. */
  lemma RequestRaisesIff(sys: System, op: Op)
    requires op.Request?
    ensures Step(sys, op).1.Raised? <==> !ReadsAll(op) || !Served(sys, op)
  {
    ServedAfterUpdate(sys, op);
  }

  /** Every other request is answered, and its answer, empty or not, is the one it deserves in the states its own
      update saw. */
  lemma RequestIsAnswered(sys: System, op: Op)
    requires op.Request? && Fits(sys, op) && ReadsAll(op) && Served(sys, op)
    ensures Step(sys, op).1.Ok?
    ensures Deserved(Seen(sys, op), op.names, op.exclude, op.want, Step(sys, op).1.value)
  {
    ServedAfterUpdate(sys, op);
    PickIsDeserved(Seen(sys, op), op.names, op.exclude, op.want);
  }

  /** A request that hands out anything met `Deserved` on what its update saw. */
  lemma RequestIsDeserved(sys: System, op: Op)
    requires op.Request? && Fits(sys, op) && Answer(Step(sys, op).1) != []
    ensures Deserved(Seen(sys, op), op.names, op.exclude, op.want, Answer(Step(sys, op).1))
    ensures PartAt(sys.parts, op.part) >= 0 && ReadsAll(op)
  {
    RequestRaisesIff(sys, op);
    RequestIsAnswered(sys, op);
  }

  lemma HeldIsSeenAllocated(sys: System, op: Op, n: string)
    requires WellFormed(sys) && op.Request? && Fits(sys, op) && ReadsAll(op) && PartAt(sys.parts, op.part) >= 0
    requires Held(sys, op.part, n) && StateOf(Seen(sys, op), n) != Unknown
    ensures StateOf(Seen(sys, op), n) == Allocated
  {
    var s := Update(sys, op.reading).0;
    UpdateKeepsShape(sys, op.reading);
    PartAtByNames(sys.parts, s.parts, op.part);
    UpdateRestoresHolds(sys, op.reading);
    NodeState(Seen(sys, op), n);
    var i := PartAt(s.parts, op.part);
    var k :| 0 <= k < |s.parts[i].nodes| && s.parts[i].nodes[k].name == n
             && s.parts[i].nodes[k].state == StateOf(Seen(sys, op), n);
    assert Held(s, s.parts[i].name, s.parts[i].nodes[k].name);
  }

  /** `max_avail` never hands out a node that is held; a count hands one out only together with every
      idle and every completing node of the group that is not excluded. */
  lemma HeldNodesComeLast(sys: System, op: Op, n: string)
    requires WellFormed(sys) && op.Request? && Fits(sys, op)
    requires n in Answer(Step(sys, op).1) && Held(sys, op.part, n)
    ensures op.want.Count?
    ensures forall m | m in op.names && m !in op.exclude && StateOf(Seen(sys, op), m) in {Idle, Completing} ::
              m in Answer(Step(sys, op).1)
  {
    RequestIsDeserved(sys, op);
    HeldIsSeenAllocated(sys, op, n);
  }

  lemma AnsweredIsThere(sys: System, op: Op, n: string)
    requires op.Request? && Fits(sys, op) && n in Answer(Step(sys, op).1)
    ensures PartAt(sys.parts, op.part) >= 0 && ReadsAll(op) && StateOf(Seen(sys, op), n) != Unknown
  {
    RequestIsDeserved(sys, op);
  }

  /** What a request hands out is held afterwards. */
  lemma HandedOutIsHeld(sys: System, op: Op, n: string)
    requires WellFormed(sys) && op.Request? && Fits(sys, op) && n in Answer(Step(sys, op).1)
    ensures Held(Step(sys, op).0, op.part, n)
  {
    var s := Update(sys, op.reading).0;
    AnsweredIsThere(sys, op, n);
    RequestGrants(sys, op);
    GrantedIsHeld(s, Step(sys, op).0, PartAt(s.parts, op.part), Answer(Step(sys, op).1), n);
  }

  /** What a request with an answer does to the state its update left. */
  lemma RequestGrants(sys: System, op: Op)
    requires WellFormed(sys) && op.Request? && ReadsAll(op) && PartAt(sys.parts, op.part) >= 0
    ensures var s := Update(sys, op.reading).0;
            && WellFormed(s) && PartAt(s.parts, op.part) == PartAt(sys.parts, op.part)
            && Granted(s, Step(sys, op).0, op.part, Answer(Step(sys, op).1))
  {
    var s := Update(sys, op.reading).0;
    UpdateKeepsWellFormed(sys, op.reading);
    ServeGrants(s, op.part, op.group, op.want, op.exclude, op.names);
    UpdateKeepsShape(sys, op.reading);
    PartAtByNames(sys.parts, s.parts, op.part);
  }

  lemma GrantedIsHeld(before: System, after: System, i: nat, answer: seq<string>, n: string)
    requires WellFormed(before) && i < |before.parts| && Granted(before, after, before.parts[i].name, answer)
    requires n in answer && StateOf(before.parts[i].nodes, n) != Unknown
    ensures Held(after, before.parts[i].name, n)
  {
    NodeState(before.parts[i].nodes, n);
    var k :| 0 <= k < |before.parts[i].nodes| && before.parts[i].nodes[k].name == n;
    var h := before.parts[i].nodes[k].(state := Allocated);
    assert PartOk(before.parts[i]) && IsCopy(before.parts, h) && h in after.holds;
  }

  /** Only a release by name ends a hold. */
  lemma HoldLasts(sys: System, op: Op, part: string, n: string)
    requires WellFormed(sys) && Fits(sys, op) && Held(sys, part, n) && n !in Released(op)
    ensures Held(Step(sys, op).0, part, n)
  {
    if op.Release? {
      ReleaseIsByName(sys, op, part, n);
    } else {
      var s := Update(sys, op.reading).0;
      UpdateKeepsWellFormed(sys, op.reading);
      var h :| h in sys.holds && h.partition == part && h.name == n;
      if op.Request? && Update(sys, op.reading).1.Ok? {
        ServeGrants(s, op.part, op.group, op.want, op.exclude, op.names);
      }
      assert h in Step(sys, op).0.holds;
    }
  }

  lemma HeldNext(states: seq<System>, ops: seq<Op>, k: nat, part: string, n: string)
    requires History(states, ops) && k < |ops| && Held(states[k], part, n) && n !in Released(ops[k])
    ensures Held(states[k + 1], part, n)
  {
    assert Follows(states, ops, k);
    HoldsStandForever(states, ops, k);
    HoldLasts(states[k], ops[k], part, n);
  }

  lemma {:induction false} HeldUntil(states: seq<System>, ops: seq<Op>, i: nat, j: nat, part: string, n: string)
    requires History(states, ops) && i <= j <= |ops| && Held(states[i], part, n)
    requires forall k | i <= k < j :: n !in Released(ops[k])
    ensures Held(states[j], part, n)
    decreases j
  {
    if i < j {
      HeldUntil(states, ops, i, j - 1, part, n);
      HeldNext(states, ops, j - 1, part, n);
    }
  }

  /** What operation `k` of a history answers. */
  function AnswerAt(states: seq<System>, ops: seq<Op>, k: nat): seq<string>
    requires k < |ops| && |states| == |ops| + 1
  {
    Answer(Step(states[k], ops[k]).1)
  }

  lemma HeldAtOnce(states: seq<System>, ops: seq<Op>, i: nat, n: string)
    requires History(states, ops) && i < |ops| && ops[i].Request? && n in AnswerAt(states, ops, i)
    ensures Held(states[i + 1], ops[i].part, n)
  {
    assert Follows(states, ops, i);
    HoldsStandForever(states, ops, i);
    HandedOutIsHeld(states[i], ops[i], n);
  }

  lemma HeldIsNotAnswered(states: seq<System>, ops: seq<Op>, j: nat, n: string)
    requires History(states, ops) && j < |ops| && ops[j].Request? && ops[j].want.MaxAvail? && Held(states[j], ops[j].part, n)
    ensures n !in AnswerAt(states, ops, j)
  {
    assert Follows(states, ops, j);
    HoldsStandForever(states, ops, j);
    if n in AnswerAt(states, ops, j) {
      HeldNodesComeLast(states[j], ops[j], n);
    }
  }

  /** A node that was handed out is not handed out again by any later `max_avail` request for its
      partition until some job's end has listed its name. */
  lemma HandedOutOnce(states: seq<System>, ops: seq<Op>, i: nat, j: nat, n: string)
    requires History(states, ops) && i < j < |ops| && ops[i].Request? && n in AnswerAt(states, ops, i)
    requires ops[j].Request? && ops[j].want.MaxAvail? && ops[i].part == ops[j].part
    requires forall k | i < k < j :: n !in Released(ops[k])
    ensures n !in AnswerAt(states, ops, j)
  {
    HeldAtOnce(states, ops, i, n);
    HeldUntil(states, ops, i + 1, j, ops[i].part, n);
    HeldIsNotAnswered(states, ops, j, n);
  }

  /** After its name was given back, a node follows the cluster again from the next complete update on. */
  lemma ReleasedFollowsCluster(sys: System, op: Op, r: Reading, i: nat, k: nat)
    requires WellFormed(sys) && op.Release? && i < |sys.parts| && r.sinfo.Ok? && r.squeue.Ok?
    requires Enumerates(r.holds, Step(sys, op).0.holds)
    requires k < |Update(Step(sys, op).0, r).0.parts[i].nodes|
    requires Update(Step(sys, op).0, r).0.parts[i].nodes[k].name in Released(op)
    ensures Says(Update(Step(sys, op).0, r).0.parts[i].nodes[k], sys.parts[i].nodes, k, r.sinfo.value + r.squeue.value)
  {
    var s := Step(sys, op).0;
    UpdateIsLastWriterWins(s, r, i);
    var n := Update(s, r).0.parts[i].nodes[k];
    ReleaseIsByName(sys, op, n.partition, n.name);
    assert Says(n, s.parts[i].nodes, k, Writers(r));
    LastMatchConcat(r.sinfo.value + r.squeue.value, r.holds, n.partition, n.name);
    assert forall h | h in r.holds :: h in s.holds;
  }

  /** A request that raises or hands out nothing leaves exactly what its update left. */
  lemma FailureLeavesNoTrace(sys: System, op: Op)
    requires WellFormed(sys) && op.Request? && Answer(Step(sys, op).1) == []
    ensures Step(sys, op).0 == Update(sys, op.reading).0 && Step(sys, op).0.holds == sys.holds
  {
    UpdateKeepsWellFormed(sys, op.reading);
    ServeGrants(Update(sys, op.reading).0, op.part, op.group, op.want, op.exclude, op.names);
  }
}
