/** `update` refines "the last writer wins": every node ends in the state given by the last entry for
    it in sinfo, then squeue, then the holds. */
module SlurmUpdates {
  import opened Basics
  import opened SlurmModel

  predicate About(e: Node, part: string, name: string) {
    e.partition == part && e.name == name
  }

  /** The last entry about a node. */
  function LastMatch(entries: seq<Node>, part: string, name: string): (r: Option<Node>)
    ensures r.Some? ==> About(r.value, part, name) && r.value in entries
    ensures r == None ==> forall k | 0 <= k < |entries| :: !About(entries[k], part, name)
  {
    if entries == [] then None
    else if About(entries[|entries| - 1], part, name) then Some(entries[|entries| - 1])
    else LastMatch(entries[..|entries| - 1], part, name)
  }

  lemma {:induction false} LastMatchConcat(a: seq<Node>, b: seq<Node>, part: string, name: string)
    ensures LastMatch(a + b, part, name) ==
            if LastMatch(b, part, name).Some? then LastMatch(b, part, name) else LastMatch(a, part, name)
    decreases |b|
  {
    if b == [] {
      assert a + b == a;
    } else {
      assert (a + b)[..|a + b| - 1] == a + b[..|b| - 1];
      LastMatchConcat(a, b[..|b| - 1], part, name);
    }
  }

  /** The state of `n` is what `entries` say last, or what it was in `before` at the same position. */
  predicate Says(n: Node, before: seq<Node>, k: nat, entries: seq<Node>) {
    match LastMatch(entries, n.partition, n.name)
    case Some(e) => n.state == e.state && n.user == e.user
    case None => k < |before| && n == before[k]
  }

  /** `after` extends `before` with further nodes of the same partition, and `entries` decide the states. */
  predicate Written(before: Partition, after: Partition, entries: seq<Node>) {
    && PartOk(after) && after.name == before.name && after.groups == before.groups
    && |before.nodes| <= |after.nodes|
    && (forall k | 0 <= k < |before.nodes| :: after.nodes[k].name == before.nodes[k].name)
    && (forall k | 0 <= k < |after.nodes| :: Says(after.nodes[k], before.nodes, k, entries))
  }

  lemma OverwriteStep(before: Partition, p: Partition, front: seq<Node>, e: Node, insertNew: bool)
    requires Written(before, p, front) && e.partition == p.name
    ensures Written(before, p.(nodes := Overwrite(p.nodes, e, insertNew)), front + [e])
  {
    var after := Overwrite(p.nodes, e, insertNew);
    assert (front + [e])[..|front|] == front;
    forall k | 0 <= k < |after| ensures Says(after[k], before.nodes, k, front + [e]) {
      if k < |p.nodes| {
        assert Says(p.nodes[k], before.nodes, k, front);
      }
    }
  }

  lemma SkipStep(before: Partition, p: Partition, front: seq<Node>, e: Node)
    requires Written(before, p, front) && e.partition != p.name
    ensures Written(before, p, front + [e])
  {
    assert (front + [e])[..|front|] == front;
    forall k | 0 <= k < |p.nodes| ensures Says(p.nodes[k], before.nodes, k, front + [e]) {
      assert Says(p.nodes[k], before.nodes, k, front);
    }
  }

  /** Absorbing entries keeps the nodes in place and leaves each in the state it was last given. */
  lemma {:induction false} AbsorbWrites(part: Partition, entries: seq<Node>, insertNew: bool)
    requires PartOk(part)
    ensures Written(part, Absorb(part, entries, insertNew), entries)
    decreases |entries|
  {
    if entries != [] {
      var front, e := entries[..|entries| - 1], entries[|entries| - 1];
      AbsorbWrites(part, front, insertNew);
      assert entries == front + [e];
      if e.partition == part.name {
        OverwriteStep(part, Absorb(part, front, insertNew), front, e, insertNew);
      } else {
        SkipStep(part, Absorb(part, front, insertNew), front, e);
      }
    }
  }

  lemma WrittenTwice(a: Partition, b: Partition, c: Partition, first: seq<Node>, second: seq<Node>)
    requires Written(a, b, first) && Written(b, c, second) && |b.nodes| == |c.nodes|
    ensures Written(a, c, first + second)
  {
    forall k | 0 <= k < |c.nodes| ensures Says(c.nodes[k], a.nodes, k, first + second) {
      var n := c.nodes[k];
      LastMatchConcat(first, second, n.partition, n.name);
      assert Says(n, b.nodes, k, second) && Says(b.nodes[k], a.nodes, k, first);
    }
  }

  // ----- Which nodes there are -----

  predicate Listed(entries: seq<Node>, part: string, name: string) {
    exists k | 0 <= k < |entries| :: About(entries[k], part, name)
  }

  lemma OverwriteNames(nodes: seq<Node>, e: Node, insertNew: bool, name: string)
    ensures Has(Overwrite(nodes, e, insertNew), name) <==> Has(nodes, name) || (insertNew && e.name == name)
  {
    var k, after := Find(nodes, e.name), Overwrite(nodes, e, insertNew);
    if Has(nodes, name) {
      var i :| 0 <= i < |nodes| && nodes[i].name == name;
      assert after[i].name == name;
    } else if k == |nodes| && insertNew && e.name == name {
      assert after[k].name == name;
    }
    if Has(after, name) {
      var i :| 0 <= i < |after| && after[i].name == name;
      assert i < |nodes| ==> nodes[i].name == name;
    }
    if k < |nodes| {
      assert nodes[k].name == e.name;
    }
  }

  lemma {:induction false} AbsorbNames(part: Partition, entries: seq<Node>, insertNew: bool, name: string)
    ensures Has(Absorb(part, entries, insertNew).nodes, name) <==>
            Has(part.nodes, name) || (insertNew && Listed(entries, part.name, name))
    decreases |entries|
  {
    if entries != [] {
      var front, e := entries[..|entries| - 1], entries[|entries| - 1];
      AbsorbNames(part, front, insertNew, name);
      OverwriteNames(Absorb(part, front, insertNew).nodes, e, insertNew, name);
      assert Listed(entries, part.name, name) <==> Listed(front, part.name, name) || About(e, part.name, name) by {
        if About(e, part.name, name) { assert About(entries[|entries| - 1], part.name, name); }
        if k :| 0 <= k < |front| && About(front[k], part.name, name) { assert About(entries[k], part.name, name); }
      }
    }
  }

  lemma {:induction false} NoInsertSameLength(part: Partition, entries: seq<Node>)
    ensures |Absorb(part, entries, false).nodes| == |part.nodes|
    decreases |entries|
  {
    if entries != [] {
      NoInsertSameLength(part, entries[..|entries| - 1]);
    }
  }

  // ----- The whole update -----

  /** Everything an update reads, in the order in which it is written. */
  function Writers(r: Reading): seq<Node>
    requires r.sinfo.Ok? && r.squeue.Ok?
  {
    r.sinfo.value + r.squeue.value + r.holds
  }

  /** After an update each node has the state its last writer gave it, no node has moved or vanished,
      names are still unique, and exactly the nodes that sinfo lists have been added. */
  lemma UpdateIsLastWriterWins(sys: System, r: Reading, i: nat)
    requires WellFormed(sys) && i < |sys.parts| && r.sinfo.Ok? && r.squeue.Ok?
    ensures var after := Update(sys, r).0;
            && Update(sys, r).1.Ok? && after.holds == sys.holds && |after.parts| == |sys.parts|
            && Written(sys.parts[i], after.parts[i], Writers(r))
            && forall name :: Has(after.parts[i].nodes, name) <==>
                 Has(sys.parts[i].nodes, name) || Listed(r.sinfo.value, sys.parts[i].name, name)
  {
    var p0 := sys.parts[i];
    var p1 := Absorb(p0, r.sinfo.value, true);
    var p2 := Absorb(p1, r.squeue.value, false);
    var p3 := Absorb(p2, r.holds, false);
    AbsorbWrites(p0, r.sinfo.value, true);
    AbsorbWrites(p1, r.squeue.value, false);
    AbsorbWrites(p2, r.holds, false);
    NoInsertSameLength(p1, r.squeue.value);
    NoInsertSameLength(p2, r.holds);
    WrittenTwice(p0, p1, p2, r.sinfo.value, r.squeue.value);
    WrittenTwice(p0, p2, p3, r.sinfo.value + r.squeue.value, r.holds);
    forall name ensures Has(p3.nodes, name) <==> Has(p0.nodes, name) || Listed(r.sinfo.value, p0.name, name) {
      AbsorbNames(p0, r.sinfo.value, true, name);
      AbsorbNames(p1, r.squeue.value, false, name);
      AbsorbNames(p2, r.holds, false, name);
    }
  }

  // ----- Repetition -----

  /** With every name already there and every node as its last writer left it, nothing changes. */
  lemma SettledStays(p: Partition, q: Partition, entries: seq<Node>)
    requires Written(p, q, entries) && |q.nodes| == |p.nodes| && PartOk(p)
    requires forall k | 0 <= k < |p.nodes| ::
               var m := LastMatch(entries, p.name, p.nodes[k].name);
               m.Some? ==> p.nodes[k].state == m.value.state && p.nodes[k].user == m.value.user
    ensures q == p
  {
    forall k | 0 <= k < |p.nodes| ensures q.nodes[k] == p.nodes[k] {
      assert Says(q.nodes[k], p.nodes, k, entries);
    }
    assert q.nodes == p.nodes;
  }

  lemma {:induction false} AllListedSameLength(p: Partition, entries: seq<Node>)
    requires forall k | 0 <= k < |entries| && entries[k].partition == p.name :: Has(p.nodes, entries[k].name)
    ensures |Absorb(p, entries, true).nodes| == |p.nodes|
    decreases |entries|
  {
    if entries != [] {
      var front, e := entries[..|entries| - 1], entries[|entries| - 1];
      AllListedSameLength(p, front);
      if e.partition == p.name {
        assert Has(p.nodes, entries[|entries| - 1].name);
        AbsorbNames(p, front, true, e.name);
      }
    }
  }

  /** Updating again from the same outputs, the holds in the same order, changes nothing. */
  lemma UpdateTwice(sys: System, r: Reading)
    requires WellFormed(sys)
    ensures var once := Update(sys, r); once.1.Ok? ==> Update(once.0, r) == once
  {
    if r.sinfo.Ok? && r.squeue.Ok? {
      var once := Update(sys, r).0;
      var twice := Update(once, r).0;
      UpdateKeepsWellFormed(sys, r);
      forall i | 0 <= i < |sys.parts| ensures twice.parts[i] == once.parts[i] {
        OnceSettles(sys, r, i);
      }
      assert twice.parts == once.parts;
    }
  }

  lemma OnceSettles(sys: System, r: Reading, i: nat)
    requires WellFormed(sys) && i < |sys.parts| && r.sinfo.Ok? && r.squeue.Ok? && WellFormed(Update(sys, r).0)
    ensures |Update(Update(sys, r).0, r).0.parts| == |Update(sys, r).0.parts| == |sys.parts|
    ensures Update(Update(sys, r).0, r).0.parts[i] == Update(sys, r).0.parts[i]
  {
    var once := Update(sys, r).0;
    var twice := Update(once, r).0;
    UpdateIsLastWriterWins(sys, r, i);
    UpdateIsLastWriterWins(once, r, i);
    var p := once.parts[i];
    forall k | 0 <= k < |r.sinfo.value| && r.sinfo.value[k].partition == p.name
      ensures Has(p.nodes, r.sinfo.value[k].name)
    {
      assert About(r.sinfo.value[k], p.name, r.sinfo.value[k].name);
    }
    AllListedSameLength(p, r.sinfo.value);
    NoInsertSameLength(Absorb(p, r.sinfo.value, true), r.squeue.value);
    NoInsertSameLength(Absorb(Absorb(p, r.sinfo.value, true), r.squeue.value, false), r.holds);
    forall k | 0 <= k < |p.nodes|
      ensures var m := LastMatch(Writers(r), p.name, p.nodes[k].name);
              m.Some? ==> p.nodes[k].state == m.value.state && p.nodes[k].user == m.value.user
    {
      assert Says(p.nodes[k], sys.parts[i].nodes, k, Writers(r));
    }
    SettledStays(p, twice.parts[i], Writers(r));
  }

  /** Even an update that stops half-way keeps the partitions well-formed. */
  lemma UpdateKeepsWellFormed(sys: System, r: Reading)
    requires WellFormed(sys)
    ensures WellFormed(Update(sys, r).0) && Update(sys, r).0.holds == sys.holds
  {
    if r.sinfo.Ok? {
      forall i | 0 <= i < |sys.parts| ensures PartOk(Update(sys, r).0.parts[i]) {
        var p1 := Absorb(sys.parts[i], r.sinfo.value, true);
        AbsorbWrites(sys.parts[i], r.sinfo.value, true);
        if r.squeue.Ok? {
          AbsorbWrites(p1, r.squeue.value, false);
          AbsorbWrites(Absorb(p1, r.squeue.value, false), r.holds, false);
        }
      }
    }
  }

  /** An update raises exactly when a command cannot be read, with the error of the first such. Without sinfo it
      has changed nothing; without squeue it has written what sinfo says and added what sinfo lists. */
  lemma CutOffUpdate(sys: System, r: Reading, i: nat)
    requires WellFormed(sys) && i < |sys.parts|
    ensures var after := Update(sys, r);
            && (after.1.Raised? <==> r.sinfo.Raised? || r.squeue.Raised?)
            && (r.sinfo.Raised? ==> after == (sys, Raised(r.sinfo.message)))
            && (r.sinfo.Ok? && r.squeue.Raised? ==>
                  && after.1 == Raised(r.squeue.message) && after.0.holds == sys.holds
                  && |after.0.parts| == |sys.parts| && Written(sys.parts[i], after.0.parts[i], r.sinfo.value)
                  && forall name :: Has(after.0.parts[i].nodes, name) <==>
                       Has(sys.parts[i].nodes, name) || Listed(r.sinfo.value, sys.parts[i].name, name))
  {
    if r.sinfo.Ok? {
      AbsorbWrites(sys.parts[i], r.sinfo.value, true);
      forall name {
        AbsorbNames(sys.parts[i], r.sinfo.value, true, name);
      }
    }
  }

  // ----- Why the holds are copies -----

  /** Writing nodes' own present values back does nothing: had the holds been the partition's own
      objects, the third pass could not restore what the first has overwritten. */
  lemma {:induction false} OwnValuesDoNothing(part: Partition, entries: seq<Node>)
    requires PartOk(part) && forall k | 0 <= k < |entries| :: entries[k] in part.nodes
    ensures Absorb(part, entries, false) == part
    decreases |entries|
  {
    if entries != [] {
      var front, e := entries[..|entries| - 1], entries[|entries| - 1];
      OwnValuesDoNothing(part, front);
      assert entries[|entries| - 1] in part.nodes;
      assert part.nodes[Find(part.nodes, e.name)] == e;
      assert Overwrite(part.nodes, e, false) == part.nodes;
    }
  }
}
