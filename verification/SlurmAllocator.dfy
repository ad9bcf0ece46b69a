/** `SlurmSystem` with the objects it mutates: nodes, the partitions' node lists, and the set of copies
    that holds nodes for CloudAI.  Each method computes the function of `SlurmModel` that its contract
    names, and no held object is ever an object of a partition. */
module SlurmAllocator {
  import opened Basics
  import opened Sorting
  import opened Strings
  import opened NodeList
  import opened SlurmModel
  import opened SlurmUpdates
  import opened SlurmHolds
  import opened SlurmSpecs

  class SlurmNode {
    const name: string
    const partition: string
    var state: NodeState
    var user: string

    constructor (n: Node)
      ensures Value() == n
    {
      name, partition, state, user := n.name, n.partition, n.state, n.user;
    }

    function Value(): Node
      reads this
    {
      Node(name, partition, state, user)
    }
  }

  function Values(nodes: seq<SlurmNode>): (vs: seq<Node>)
    reads nodes
    ensures |vs| == |nodes|
  {
    seq(|nodes|, i requires 0 <= i < |nodes| reads nodes => nodes[i].Value())
  }

  function NamesOf(nodes: seq<SlurmNode>): (names: seq<string>)
    ensures |names| == |nodes|
  {
    seq(|nodes|, i requires 0 <= i < |nodes| => nodes[i].name)
  }

  class SlurmPartition {
    const name: string
    const groups: seq<NodeGroup>
    var slurmNodes: seq<SlurmNode>

    function Value(): Partition
      reads this, slurmNodes
    {
      Partition(name, groups, Values(slurmNodes))
    }

    constructor (name: string, groups: seq<NodeGroup>)
      ensures this.name == name && this.groups == groups && slurmNodes == []
    {
      this.name, this.groups, slurmNodes := name, groups, [];
    }

    /** No object twice, and every node knows its partition. */
    ghost predicate Valid()
      reads this
    {
      Distinct(slurmNodes) && forall n | n in slurmNodes :: n.partition == name
    }

    /** The inner loop of `update_nodes_state_and_user`. */
    method Overwrite(node: SlurmNode, insertNew: bool)
      requires Valid() && node !in slurmNodes && node.partition == name
      modifies this, slurmNodes
      ensures Valid() && Values(slurmNodes) == SlurmModel.Overwrite(old(Values(slurmNodes)), old(node.Value()), insertNew)
      ensures slurmNodes == old(slurmNodes) || (insertNew && slurmNodes == old(slurmNodes) + [node])
      ensures unchanged(node)
    {
      ghost var before := Values(slurmNodes);
      var found := false;
      for i := 0 to |slurmNodes|
        invariant !found && slurmNodes == old(slurmNodes) && Values(slurmNodes) == before
        invariant forall j | 0 <= j < i :: slurmNodes[j].name != node.name
      {
        if slurmNodes[i].name == node.name {
          assert before[i].name == node.name && forall j | 0 <= j < i :: before[j].name == slurmNodes[j].name;
          slurmNodes[i].state, slurmNodes[i].user := node.state, node.user;
          found := true;
          assert Values(slurmNodes) == SlurmModel.Overwrite(before, node.Value(), insertNew);
          break;
        }
      }
      if !found {
        assert Find(before, node.name) == |before|;
        if insertNew {
          slurmNodes := slurmNodes + [node];
          assert Values(slurmNodes) == before + [node.Value()];
        }
      }
    }

    /** In one partition a name stands for one object. */
    lemma SameNameSameNode(nodes: seq<SlurmNode>, n: SlurmNode)
      requires UniqueNames(Values(slurmNodes)) && n in slurmNodes && forall m | m in nodes :: m in slurmNodes
      ensures n in nodes <==> n.name in NamesOf(nodes)
    {
      if n in nodes {
        var y :| 0 <= y < |nodes| && nodes[y] == n;
        assert NamesOf(nodes)[y] == n.name;
      }
      if n.name in NamesOf(nodes) {
        var y :| 0 <= y < |nodes| && nodes[y].name == n.name;
        assert nodes[y] in nodes;
        var x :| 0 <= x < |slurmNodes| && slurmNodes[x] == n;
        var z :| 0 <= z < |slurmNodes| && slurmNodes[z] == nodes[y];
        assert Values(slurmNodes)[x].name == Values(slurmNodes)[z].name;
      }
    }

    /** `node.state = ALLOCATED` for each of `nodes`. */
    method MarkAllocated(nodes: seq<SlurmNode>)
      requires UniqueNames(Values(slurmNodes)) && forall n | n in nodes :: n in slurmNodes
      modifies slurmNodes
      ensures Values(slurmNodes) == Mark(old(Values(slurmNodes)), NamesOf(nodes))
    {
      forall n | n in slurmNodes ensures n in nodes <==> n.name in NamesOf(nodes) { SameNameSameNode(nodes, n); }
      for k := 0 to |nodes|
        invariant forall n | n in slurmNodes ::
                    n.Value() == if n in nodes[..k] then old(n.Value()).(state := Allocated) else old(n.Value())
      {
        assert nodes[k] in nodes;
        nodes[k].state := Allocated;
      }
      assert nodes[..|nodes|] == nodes;
      forall k | 0 <= k < |slurmNodes|
        ensures Values(slurmNodes)[k] == Mark(old(Values(slurmNodes)), NamesOf(nodes))[k]
      {
        assert slurmNodes[k] in slurmNodes;
        assert old(Values(slurmNodes))[k] == old(slurmNodes[k].Value());
      }
    }
  }

  lemma AbsorbOneMore(parts: seq<Partition>, entries: seq<Node>, k: nat, insertNew: bool)
    requires k < |entries|
    ensures AbsorbAll(AbsorbAll(parts, entries[..k], insertNew), [entries[k]], insertNew)
         == AbsorbAll(parts, entries[..k + 1], insertNew)
  {
    forall i | 0 <= i < |parts|
      ensures Absorb(Absorb(parts[i], entries[..k], insertNew), [entries[k]], insertNew)
           == Absorb(parts[i], entries[..k + 1], insertNew)
    {
      AbsorbOne(Absorb(parts[i], entries[..k], insertNew), entries[k], insertNew);
      assert entries[..k + 1][..k] == entries[..k];
    }
  }

  lemma AbsorbOne(part: Partition, e: Node, insertNew: bool)
    ensures Absorb(part, [e], insertNew) ==
            if e.partition == part.name then part.(nodes := SlurmModel.Overwrite(part.nodes, e, insertNew)) else part
  {
    assert [e][..0] == [];
    assert Absorb(part, [], insertNew) == part;
  }

  ghost function ValuesOf(objects: set<SlurmNode>): set<Node>
    reads objects
  {
    set h | h in objects :: h.Value()
  }

  /** A set of objects stands for the set of their values, each once. */
  ghost predicate Mirrors(objects: set<SlurmNode>, values: set<Node>)
    reads objects
  {
    && values == ValuesOf(objects)
    && (forall a, b | a in objects && b in objects && a != b :: a.Value() != b.Value())
  }

  function Marked(sys: System, i: nat, names: seq<string>): System
    requires i < |sys.parts|
  {
    sys.(parts := sys.parts[i := sys.parts[i].(nodes := Mark(sys.parts[i].nodes, names))])
  }

  /** The nodes per state, in the order in which they are handed out. */
  const ORDER: seq<NodeState> := [Idle, Completing, Allocated, Reserved]

  /** What the first `s` states offer. */
  function Offered(pools: seq<seq<SlurmNode>>, s: nat): seq<SlurmNode>
    requires s <= |pools|
  {
    if s == 0 then [] else Offered(pools, s - 1) + pools[s - 1]
  }

  function Min(a: int, b: int): int {
    if a < b then a else b
  }

  lemma NamesOfChoice(a: seq<SlurmNode>, b: seq<SlurmNode>, c: seq<SlurmNode>, d: seq<SlurmNode>, want: Want)
    ensures var r, names := Choose(a, b, c, d, want), Choose(NamesOf(a), NamesOf(b), NamesOf(c), NamesOf(d), want);
            && r.Ok? == names.Ok? && (r.Ok? ==> NamesOf(r.value) == names.value)
            && (r.Raised? ==> r.message == names.message)
  {
    assert NamesOf(a + b + d) == NamesOf(a) + NamesOf(b) + NamesOf(d);
    assert NamesOf(a + b + c + d) == NamesOf(a) + NamesOf(b) + NamesOf(c) + NamesOf(d);
    if want.Count? && 0 < want.n <= |a + b + c + d| {
      assert NamesOf((a + b + c + d)[..want.n]) == NamesOf(a + b + c + d)[..want.n];
    }
  }

  lemma NamesSnoc(nodes: seq<SlurmNode>, n: SlurmNode)
    ensures NamesOf(nodes + [n]) == NamesOf(nodes) + [n.name]
  {
  }

  lemma PoolSnoc(nodes: seq<Node>, names: seq<string>, n: string, exclude: seq<string>)
    ensures forall state :: Pool(nodes, names + [n], exclude, state)
              == Pool(nodes, names, exclude, state) + if n !in exclude && StateOf(nodes, n) == state then [n] else []
  {
    assert (names + [n])[..|names|] == names;
  }

  /** `pop(0)` until the pool is empty or `n` nodes are taken. */
  method PopSome(pool: seq<SlurmNode>, taken: seq<SlurmNode>, n: int) returns (more: seq<SlurmNode>)
    ensures more == taken + pool[..Min(|pool|, Max(n - |taken|, 0))]
  {
    var rest := pool;
    more := taken;
    ghost var k := 0;
    while rest != [] && |more| < n
      invariant k <= |pool| && rest == pool[k..] && more == taken + pool[..k]
      invariant k == 0 || |more| <= n
      decreases rest
    {
      assert pool[..k + 1] == pool[..k] + [pool[k]];
      more, rest, k := more + [rest[0]], rest[1..], k + 1;
    }
  }

  function Taken(nodes: seq<SlurmNode>, n: int): seq<SlurmNode> {
    nodes[..Min(|nodes|, Max(n, 0))]
  }

  lemma TakenNext(pools: seq<seq<SlurmNode>>, s: nat, n: int)
    requires s < |pools|
    ensures var taken := Taken(Offered(pools, s), n);
            Taken(Offered(pools, s + 1), n) == taken + pools[s][..Min(|pools[s]|, Max(n - |taken|, 0))]
  {
  }

  lemma OfferedInAll(pools: seq<seq<SlurmNode>>)
    requires |pools| == 4
    ensures Offered(pools, 4) == pools[0] + pools[1] + pools[2] + pools[3]
  {
    assert Offered(pools, 1) == pools[0];
    assert Offered(pools, 2) == pools[0] + pools[1];
    assert Offered(pools, 3) == pools[0] + pools[1] + pools[2];
  }

  /** `allocate_nodes` up to the choice. */
  method ChooseNodes(pools: seq<seq<SlurmNode>>, want: Want) returns (r: Result<seq<SlurmNode>>)
    requires |pools| == 4
    ensures r == Choose(pools[0], pools[1], pools[2], pools[3], want)
  {
    match want
    case MaxAvail =>
      var free := pools[0];
      free := free + pools[1];
      free := free + pools[3];
      if free == [] { return Raised("no nodes are available"); }
      return Ok(free);
    case Count(n) =>
      var taken: seq<SlurmNode> := [];
      for s := 0 to 4
        invariant taken == Taken(Offered(pools, s), n)
      {
        TakenNext(pools, s, n);
        taken := PopSome(pools[s], taken, n);
      }
      OfferedInAll(pools);
      if |taken| < n { return Raised("not enough nodes"); }
      return Ok(taken);
    case Nonsense => return Raised("must be an integer or 'max_avail'");
  }

  /** The first `k` node lists can be read, and `names` are what they mention. */
  predicate Gathered(specs: seq<string>, k: nat, names: set<string>) {
    && k <= |specs| && names == Members(specs[..k])
    && forall j | 0 <= j < k :: Parsed(specs[j]).Ok?
  }

  lemma GatheredNext(specs: seq<string>, k: nat, names: set<string>)
    requires k < |specs| && Gathered(specs, k, names) && Parsed(specs[k]).Ok?
    ensures Gathered(specs, k + 1, names + SetOf(Parsed(specs[k]).value))
  {
    assert specs[..k + 1][..k] == specs[..k];
  }

  lemma ChosenFrom(pools: seq<seq<SlurmNode>>, want: Want, source: seq<SlurmNode>)
    requires |pools| == 4 && forall s, n | 0 <= s < 4 && n in pools[s] :: n in source
    ensures var r := Choose(pools[0], pools[1], pools[2], pools[3], want);
            r.Ok? ==> forall n | n in r.value :: n in source
  {
  }

  function NamesIn(r: Result<seq<SlurmNode>>): Result<seq<string>> {
    match r case Ok(nodes) => Ok(NamesOf(nodes)) case Raised(m) => Raised(m)
  }

  /** An update changes neither partitions nor groups, so an order that fits afterwards fitted before. */
  lemma RequestInTwo(before: System, after: System, ok: Result<()>, op: Op)
    requires op.Request? && (after, ok) == SlurmModel.Update(before, op.reading)
    requires ok.Ok? ==> Enumerates(op.reading.holds, before.holds) && OrderFits(after, op.part, op.group, op.names)
    ensures Fits(before, op)
    ensures Step(before, op) == if ok.Raised? then (after, Raised(ok.message))
                                else SlurmModel.Serve(after, op.part, op.group, op.want, op.exclude, op.names)
  {
    UpdateKeepsShape(before, op.reading);
    PartAtByNames(before.parts, after.parts, op.part);
  }

  /** The names in all the node lists of a group. */
  method MemberNames(specs: seq<string>) returns (r: Result<set<string>>)
    ensures r.Ok? <==> SpecsRead(specs)
    ensures r.Ok? ==> r.value == Members(specs)
  {
    var names: set<string> := {};
    for k := 0 to |specs|
      invariant Gathered(specs, k, names)
    {
      var nodeList := ParseNodeList(specs[k]);
      if nodeList.Raised? { return Raised(nodeList.message); }
      GatheredNext(specs, k, names);
      names := names + SetOf(nodeList.value);
    }
    assert specs[..|specs|] == specs;
    r := Ok(names);
  }

  function Elements(s: seq<Node>): set<Node> {
    if s == [] then {} else Elements(s[..|s| - 1]) + {s[|s| - 1]}
  }

  lemma {:induction false} InElements(s: seq<Node>, v: Node)
    ensures v in Elements(s) <==> v in s
    decreases |s|
  {
    if s != [] {
      InElements(s[..|s| - 1], v);
      assert s == s[..|s| - 1] + [s[|s| - 1]];
    }
  }

  /** `set.add(copy(node))`: an equal member stays. */
  method AddCopy(held: set<SlurmNode>, ghost values: set<Node>, node: SlurmNode, ghost avoid: set<SlurmNode>)
    returns (r: set<SlurmNode>)
    requires Mirrors(held, values) && held !! avoid
    ensures Mirrors(r, values + {node.Value()}) && r !! avoid
  {
    if exists h | h in held :: h.Value() == node.Value() {
      assert values + {node.Value()} == values;
      return held;
    }
    var c := new SlurmNode(node.Value());
    r := held + {c};
  }

  method AddCopies(held: set<SlurmNode>, ghost values: set<Node>, nodes: seq<SlurmNode>, ghost avoid: set<SlurmNode>)
    returns (r: set<SlurmNode>)
    requires Mirrors(held, values) && held !! avoid
    ensures Mirrors(r, values + Elements(Values(nodes))) && r !! avoid
  {
    r := held;
    ghost var ws := Values(nodes);
    assert values + Elements(ws[..0]) == values;
    for k := 0 to |nodes|
      invariant Mirrors(r, values + Elements(ws[..k])) && r !! avoid
    {
      assert nodes[k].Value() == ws[k] && ws[..k + 1][..k] == ws[..k];
      r := AddCopy(r, values + Elements(ws[..k]), nodes[k], avoid);
      assert values + Elements(ws[..k + 1]) == values + Elements(ws[..k]) + {ws[k]};
    }
    assert ws[..|nodes|] == ws;
  }

  /** The loop so far: its state, and the names it has collected. */
  ghost predicate Collects(c: Call, sys: System, specs: seq<string>, exclude: seq<string>, now: System, names: seq<string>) {
    Reaches(c, sys, specs, exclude) && now == c.states[|c.shares|] && Total(c.shares) == Ok(names) && !Failed(c.shares)
  }

  lemma CallNext(c: Call, sys: System, specs: seq<string>, exclude: seq<string>,
                 s: System, share: Result<seq<string>>, feed: Feed)
    requires Reaches(c, sys, specs, exclude) && |c.shares| < |specs| && !Failed(c.shares)
    requires var n := |c.shares|;
             (s, share) == SlurmSpecs.ParseSpec(c.states[n], specs[n], exclude, feed) && FeedFits(c.states[n], specs[n], exclude, feed)
    ensures Reaches(Call(c.states + [s], c.shares + [share], c.feeds + [feed]), sys, specs, exclude)
    ensures Total(c.shares + [share]) == Append(Total(c.shares), share)
    ensures forall names | share.Ok? && Total(c.shares) == Ok(names) ::
              Collects(Call(c.states + [s], c.shares + [share], c.feeds + [feed]), sys, specs, exclude, s, names + share.value)
  {
    var c', n := Call(c.states + [s], c.shares + [share], c.feeds + [feed]), |c.shares|;
    assert c'.states[n] == c.states[n] && c'.states[n + 1] == s && c'.shares[n] == share && c'.feeds[n] == feed;
    assert SpecAt(c', specs, exclude, n);
    forall k | 0 <= k < |c'.shares| ensures SpecAt(c', specs, exclude, k) {
      if k < n {
        SpecKept(c, c', specs, exclude, k);
      }
    }
    assert c'.shares[..n] == c.shares;
  }

  lemma SpecKept(c: Call, c': Call, specs: seq<string>, exclude: seq<string>, k: nat)
    requires Shaped(c, specs) && Shaped(c', specs) && k < |c.shares| && k < |c'.shares| && SpecAt(c, specs, exclude, k)
    requires c'.states[k] == c.states[k] && c'.states[k + 1] == c.states[k + 1]
    requires c'.shares[k] == c.shares[k] && c'.feeds[k] == c.feeds[k]
    ensures SpecAt(c', specs, exclude, k)
  {
  }

  class SlurmSystem {
    const name: string
    const parts: seq<SlurmPartition>
    var groupAllocated: set<SlurmNode>
    ghost var model: System

    /** All the nodes of the partitions. */
    ghost var owned: set<SlurmNode>

    /** No nodes are known and nothing is held before the first update. */
    constructor (name: string, parts: seq<SlurmPartition>)
      requires forall i, j | 0 <= i < j < |parts| :: parts[i].name != parts[j].name
      requires forall i | 0 <= i < |parts| :: parts[i].slurmNodes == []
      ensures Valid() && this.name == name && this.parts == parts && groupAllocated == {}
    {
      this.name, this.parts, groupAllocated, owned := name, parts, {}, {};
      model := System(name, seq(|parts|, i requires 0 <= i < |parts| => Partition(parts[i].name, parts[i].groups, [])), {});
    }

    ghost predicate Shaped()
      reads this`owned, parts
    {
      && (forall i, j | 0 <= i < j < |parts| :: parts[i].name != parts[j].name)
      && (forall i | 0 <= i < |parts| :: parts[i].Valid() && forall n | n in parts[i].slurmNodes :: n in owned)
    }

    ghost predicate PartsAre(ps: seq<Partition>)
      requires Shaped()
      reads this`owned, parts, owned
    {
      |ps| == |parts| && forall i | 0 <= i < |parts| :: ps[i] == parts[i].Value()
    }

    ghost predicate HoldsAre(holds: set<Node>)
      reads this`groupAllocated, this`owned, groupAllocated
    {
      Mirrors(groupAllocated, holds) && groupAllocated !! owned
    }

    /** `model` is what the objects stand for, and no held object belongs to a partition. */
    ghost predicate Sound()
      reads this, parts, owned, groupAllocated
    {
      Shaped() && PartsAre(model.parts) && HoldsAre(model.holds)
    }

    ghost predicate Valid()
      reads this, parts, owned, groupAllocated
    {
      Sound() && model.name == name && WellFormed(model)
    }

    lemma Apart(i: nat, j: nat, n: SlurmNode)
      requires Shaped() && i < |parts| && j < |parts| && i != j && n in parts[i].slurmNodes
      ensures n !in parts[j].slurmNodes && parts[i] != parts[j]
    {
    }

    /** One entry and one partition; the nodes of the others are different objects. */
    method ApplyAt(i: nat, node: SlurmNode, insertNew: bool)
      requires Shaped() && i < |parts| && node !in parts[i].slurmNodes && (insertNew ==> node in owned)
      modifies parts[i], parts[i].slurmNodes
      ensures Shaped() && parts[i].Value() == Absorb(old(parts[i].Value()), [old(node.Value())], insertNew)
      ensures forall j | 0 <= j < |parts| && j != i ::
                parts[j].Value() == old(parts[j].Value()) && parts[j].slurmNodes == old(parts[j].slurmNodes)
    {
      AbsorbOne(parts[i].Value(), node.Value(), insertNew);
      forall j, n | 0 <= j < |parts| && j != i && n in parts[i].slurmNodes
        ensures n !in parts[j].slurmNodes && parts[i] != parts[j]
      {
        Apart(i, j, n);
      }
      assert forall j | 0 <= j < |parts| && j != i :: parts[i] != parts[j];
      if parts[i].name == node.partition {
        parts[i].Overwrite(node, insertNew);
      }
    }

    /** The middle loop of `update_nodes_state_and_user`. */
    method ApplyNode(node: SlurmNode, insertNew: bool)
      requires Shaped() && PartsAre(model.parts) && node !in owned
      modifies this`model, this`owned, parts, owned
      ensures Shaped() && PartsAre(model.parts)
      ensures model == old(model).(parts := AbsorbAll(old(model.parts), [old(node.Value())], insertNew))
      ensures owned == old(owned) + if insertNew then {node} else {}
    {
      ghost var before, v := model.parts, node.Value();
      owned := owned + if insertNew then {node} else {};
      for i := 0 to |parts|
        invariant Shaped() && node.Value() == v && model == old(model)
        invariant owned == old(owned) + if insertNew then {node} else {}
        invariant forall j | 0 <= j < i :: parts[j].Value() == Absorb(before[j], [v], insertNew)
        invariant forall j | i <= j < |parts| :: parts[j].Value() == before[j] && parts[j].slurmNodes == old(parts[j].slurmNodes)
      {
        assert forall n | n in parts[i].slurmNodes :: n in old(owned);
        ApplyAt(i, node, insertNew);
      }
      model := model.(parts := AbsorbAll(before, [v], insertNew));
    }

    /** `update_nodes_state_and_user`: the objects in `nodes` are new to the partitions.  An inserted
        object may be overwritten by a later entry, but only after it has been read. */
    method UpdateNodesStateAndUser(nodes: seq<SlurmNode>, insertNew: bool)
      requires Shaped() && PartsAre(model.parts) && Distinct(nodes) && forall n | n in nodes :: n !in owned
      modifies this`model, this`owned, parts, owned, if insertNew then nodes else []
      ensures Shaped() && PartsAre(model.parts)
      ensures model == old(model).(parts := AbsorbAll(old(model.parts), old(Values(nodes)), insertNew))
      ensures forall n | n in owned :: n in old(owned) || (insertNew && n in nodes)
    {
      ghost var vs, before := Values(nodes), model.parts;
      for k := 0 to |nodes|
        invariant Shaped() && PartsAre(model.parts)
        invariant model == old(model).(parts := AbsorbAll(before, vs[..k], insertNew))
        invariant forall n | n in owned :: n in old(owned) || (insertNew && n in nodes)
        invariant forall j | k <= j < |nodes| :: nodes[j] !in owned && nodes[j].Value() == vs[j]
      {
        assert nodes[k] in nodes;
        ApplyNode(nodes[k], insertNew);
        AbsorbOneMore(before, vs, k, insertNew);
      }
      assert vs[..|nodes|] == vs;
    }

    /** The objects that reading a command creates. */
    static method Read(entries: seq<Node>) returns (nodes: seq<SlurmNode>)
      ensures fresh(nodes) && Distinct(nodes) && Values(nodes) == entries
    {
      nodes := [];
      for k := 0 to |entries|
        invariant fresh(nodes) && Distinct(nodes) && |nodes| == k
        invariant forall j | 0 <= j < k :: nodes[j].Value() == entries[j]
      {
        var n := new SlurmNode(entries[k]);
        nodes := nodes + [n];
      }
    }

    /** The members of the set of holds in whatever order Python visits them. */
    method Visit() returns (nodes: seq<SlurmNode>)
      ensures Distinct(nodes) && forall n :: n in nodes <==> n in groupAllocated
    {
      nodes := [];
      var rest := groupAllocated;
      while rest != {}
        invariant rest <= groupAllocated && Distinct(nodes)
        invariant forall n :: n in groupAllocated <==> n in rest || n in nodes
        invariant forall n | n in nodes :: n !in rest
      {
        var n :| n in rest;
        nodes, rest := nodes + [n], rest - {n};
      }
    }

    lemma VisitEnumerates(nodes: seq<SlurmNode>)
      requires Mirrors(groupAllocated, model.holds) && Distinct(nodes) && forall n :: n in nodes <==> n in groupAllocated
      ensures Enumerates(Values(nodes), model.holds)
    {
      var vs := Values(nodes);
      forall i, j | 0 <= i < j < |vs| ensures vs[i] != vs[j] {
        assert nodes[i] in groupAllocated && nodes[j] in groupAllocated;
      }
      forall v | v in model.holds ensures v in vs {
        var h :| h in groupAllocated && h.Value() == v;
        var i :| 0 <= i < |nodes| && nodes[i] == h;
        assert vs[i] == v;
      }
      forall i | 0 <= i < |vs| ensures vs[i] in model.holds {
        assert nodes[i] in groupAllocated;
      }
    }

    method AbsorbOutput(entries: seq<Node>, insertNew: bool)
      requires Sound()
      modifies this`model, this`owned, parts, owned
      ensures Sound() && model == old(model).(parts := AbsorbAll(old(model.parts), entries, insertNew))
      ensures forall n | n in owned :: n in old(owned) || fresh(n)
    {
      var nodes := Read(entries);
      assert Sound() && forall n | n in nodes :: n !in owned && n !in groupAllocated;
      UpdateNodesStateAndUser(nodes, insertNew);
      assert groupAllocated !! owned;
      assert HoldsAre(model.holds);
    }

    method AbsorbHolds() returns (ghost order: seq<Node>)
      requires Sound()
      modifies this`model, this`owned, parts, owned
      ensures Sound() && model == old(model).(parts := AbsorbAll(old(model.parts), order, false))
      ensures Enumerates(order, model.holds)
      ensures forall n | n in owned :: n in old(owned)
    {
      var held := Visit();
      VisitEnumerates(held);
      order := Values(held);
      UpdateNodesStateAndUser(held, false);
      assert HoldsAre(model.holds);
    }

    /** `update`, given what the two commands print. */
    method Update(sinfo: Result<seq<Node>>, squeue: Result<seq<Node>>) returns (ok: Result<()>, ghost r: Reading)
      requires Valid()
      modifies this`model, this`owned, parts, owned
      ensures Valid() && r.sinfo == sinfo && r.squeue == squeue
      ensures ok.Ok? ==> Enumerates(r.holds, old(model.holds))
      ensures (model, ok) == SlurmModel.Update(old(model), r)
      ensures forall n | n in owned :: n in old(owned) || fresh(n)
    {
      ghost var before := model;
      if sinfo.Raised? { return Raised(sinfo.message), Reading(sinfo, squeue, []); }
      AbsorbOutput(sinfo.value, true);
      if squeue.Raised? {
        r := Reading(sinfo, squeue, []);
        UpdateKeepsWellFormed(before, r);
        return Raised(squeue.message), r;
      }
      AbsorbOutput(squeue.value, false);
      ghost var order := AbsorbHolds();
      r := Reading(sinfo, squeue, order);
      UpdateKeepsWellFormed(before, r);
      ok := Ok(());
    }

    // ----- Groups -----

    /** Building `groups` reads every node list of every group. */
    method AllReadable() returns (ok: bool)
      requires Valid()
      ensures ok == Readable(model.parts)
    {
      for i := 0 to |parts|
        invariant forall a | 0 <= a < i :: GroupsRead(model.parts[a].groups)
      {
        assert model.parts[i].groups == parts[i].groups;
        var readable := AllGroupsReadable(parts[i].groups);
        if !readable { return false; }
      }
      return true;
    }

    static method AllGroupsReadable(groups: seq<NodeGroup>) returns (ok: bool)
      ensures ok == GroupsRead(groups)
    {
      for j := 0 to |groups|
        invariant forall b | 0 <= b < j :: SpecsRead(groups[b].specs)
      {
        var names := MemberNames(groups[j].specs);
        if names.Raised? { return false; }
      }
      return true;
    }

    /** The partition's node with that name, or a new node in an unknown state. */
    method FindNode(i: nat, nodeName: string) returns (node: SlurmNode)
      requires Valid() && i < |parts|
      ensures node.name == nodeName && node.state == StateOf(model.parts[i].nodes, nodeName)
      ensures node in parts[i].slurmNodes || (fresh(node) && node.state == Unknown)
    {
      var part := parts[i];
      assert model.parts[i].nodes == Values(part.slurmNodes);
      for k := 0 to |part.slurmNodes|
        invariant forall j | 0 <= j < k :: part.slurmNodes[j].name != nodeName
      {
        if part.slurmNodes[k].name == nodeName {
          assert forall j | 0 <= j <= k :: model.parts[i].nodes[j].name == part.slurmNodes[j].name;
          return part.slurmNodes[k];
        }
      }
      assert Find(model.parts[i].nodes, nodeName) == |model.parts[i].nodes|;
      node := new SlurmNode(Node(nodeName, name, Unknown, "N/A"));
    }

    /** A node list entry of `groups`. */
    twostate predicate Stands(new node: SlurmNode, i: nat, nodeName: string)
      requires i < |parts| == |model.parts|
      reads this, node, parts
    {
      && node.name == nodeName && node.state == StateOf(model.parts[i].nodes, nodeName)
      && (node in parts[i].slurmNodes || (fresh(node) && node.state == Unknown))
    }

    /** One group of `groups`: its nodes in the order in which the set of names is visited. */
    method GroupNodes(i: nat, j: nat) returns (nodes: seq<SlurmNode>, names: seq<string>)
      requires Valid() && i < |parts| && j < |parts[i].groups| && Readable(model.parts)
      ensures |nodes| == |names| && Enumerates(names, Members(parts[i].groups[j].specs))
      ensures forall k | 0 <= k < |nodes| :: Stands(nodes[k], i, names[k])
    {
      assert model.parts[i].groups == parts[i].groups;
      var members := MemberNames(parts[i].groups[j].specs);
      var rest := members.value;
      nodes, names := [], [];
      while rest != {}
        invariant rest <= members.value && |nodes| == |names| && Distinct(names)
        invariant forall n :: n in members.value <==> n in rest || n in names
        invariant forall n | n in names :: n !in rest
        invariant forall k | 0 <= k < |nodes| :: Stands(nodes[k], i, names[k])
      {
        var n :| n in rest;
        var node := FindNode(i, n);
        nodes, names, rest := nodes + [node], names + [n], rest - {n};
      }
    }

    // ----- Requests -----

    /** `group_nodes_by_state`: the lists per state, in the order of `ORDER`. */
    method GroupByState(i: nat, nodes: seq<SlurmNode>, names: seq<string>, exclude: seq<string>)
      returns (pools: seq<seq<SlurmNode>>)
      requires Valid() && i < |parts| && |nodes| == |names|
      requires forall k | 0 <= k < |nodes| :: nodes[k].name == names[k] && nodes[k].state == StateOf(model.parts[i].nodes, names[k])
      requires forall k | 0 <= k < |nodes| :: nodes[k] in parts[i].slurmNodes || nodes[k].state == Unknown
      ensures |pools| == 4
      ensures forall s | 0 <= s < 4 :: NamesOf(pools[s]) == Pool(model.parts[i].nodes, names, exclude, ORDER[s])
      ensures forall s, n | 0 <= s < 4 && n in pools[s] :: n in parts[i].slurmNodes
    {
      pools := [[], [], [], []];
      for k := 0 to |nodes|
        invariant PoolsAre(i, pools, names[..k], exclude)
      {
        assert names[..k + 1] == names[..k] + [names[k]];
        pools := AddToPool(i, nodes[k], pools, names[..k], exclude);
      }
      assert names[..|nodes|] == names;
    }

    /** The lists per state after the nodes with these names. */
    ghost predicate PoolsAre(i: nat, pools: seq<seq<SlurmNode>>, names: seq<string>, exclude: seq<string>)
      reads this, parts
    {
      && |pools| == 4 && i < |parts| == |model.parts|
      && (forall s | 0 <= s < 4 :: NamesOf(pools[s]) == Pool(model.parts[i].nodes, names, exclude, ORDER[s]))
      && (forall s, n | 0 <= s < 4 && n in pools[s] :: n in parts[i].slurmNodes)
    }

    /** One node goes to the list of its state. */
    method AddToPool(i: nat, node: SlurmNode, pools: seq<seq<SlurmNode>>, ghost names: seq<string>, exclude: seq<string>)
      returns (r: seq<seq<SlurmNode>>)
      requires Valid() && PoolsAre(i, pools, names, exclude) && node.state == StateOf(model.parts[i].nodes, node.name)
      requires node in parts[i].slurmNodes || node.state == Unknown
      ensures PoolsAre(i, r, names + [node.name], exclude)
    {
      r := pools;
      PoolSnoc(model.parts[i].nodes, names, node.name, exclude);
      if node.name !in exclude {
        for s := 0 to 4
          invariant |r| == 4 && forall t | 0 <= t < 4 :: r[t] == if t < s && node.state == ORDER[t] then pools[t] + [node] else pools[t]
        {
          if node.state == ORDER[s] { r := r[s := r[s] + [node]]; }
        }
      }
      forall s | 0 <= s < 4 && node.state == ORDER[s] ensures NamesOf(r[s]) == NamesOf(pools[s]) + if node.name !in exclude then [node.name] else [] {
        NamesSnoc(pools[s], node);
      }
    }

    /** The first loop at the end of `allocate_nodes`: no other partition is touched. */
    method MarkAt(i: nat, nodes: seq<SlurmNode>)
      requires Shaped() && i < |parts| && UniqueNames(parts[i].Value().nodes)
      requires forall n | n in nodes :: n in parts[i].slurmNodes
      modifies parts[i].slurmNodes
      ensures Shaped()
      ensures parts[i].Value().nodes == Mark(old(parts[i].Value().nodes), NamesOf(nodes))
      ensures forall j | 0 <= j < |parts| && j != i :: parts[j].Value() == old(parts[j].Value())
    {
      forall j, n | 0 <= j < |parts| && j != i && n in parts[i].slurmNodes
        ensures n !in parts[j].slurmNodes && parts[i] != parts[j]
      {
        Apart(i, j, n);
      }
      parts[i].MarkAllocated(nodes);
    }

    method Become(held: set<SlurmNode>, ghost s: System)
      requires Shaped() && PartsAre(s.parts) && Mirrors(held, s.holds) && held !! owned
      modifies this`groupAllocated, this`model
      ensures Sound() && model == s && groupAllocated == held
    {
      groupAllocated, model := held, s;
      assert PartsAre(s.parts);
      assert Mirrors(held, s.holds);
    }

    method MarkAllocated(i: nat, nodes: seq<SlurmNode>)
      requires Sound() && WellFormed(model) && i < |parts| && forall n | n in nodes :: n in parts[i].slurmNodes
      modifies this`model, this`groupAllocated, owned
      ensures Sound() && model == Marked(old(model), i, NamesOf(nodes))
    {
      assert PartOk(model.parts[i]) && model.parts[i] == parts[i].Value();
      assert forall n | n in parts[i].slurmNodes :: n in owned;
      ghost var marked := Marked(model, i, NamesOf(nodes));
      MarkAt(i, nodes);
      assert forall j | 0 <= j < |parts| :: marked.parts[j] == parts[j].Value();
      assert Mirrors(groupAllocated, marked.holds);
      Become(groupAllocated, marked);
    }

    /** `group_allocated.update(copy(node) for node in nodes)`. */
    method Hold(nodes: seq<SlurmNode>)
      requires Sound()
      modifies this`groupAllocated, this`model
      ensures Sound() && model == old(model.(holds := model.holds + Elements(Values(nodes))))
    {
      ghost var s := model.(holds := model.holds + Elements(Values(nodes)));
      var held := AddCopies(groupAllocated, model.holds, nodes, owned);
      Become(held, s);
    }

    /** The copies of the nodes just marked are the holds that the model adds. */
    lemma CopiesOfMarked(i: nat, nodes: seq<SlurmNode>, before: seq<Node>)
      requires i < |parts| && UniqueNames(before) && Values(parts[i].slurmNodes) == Mark(before, NamesOf(nodes))
      requires forall n | n in nodes :: n in parts[i].slurmNodes
      ensures Elements(Values(nodes)) == Copies(before, NamesOf(nodes))
    {
      var part, names := parts[i], NamesOf(nodes);
      forall v ensures v in Elements(Values(nodes)) <==> v in Values(nodes) { InElements(Values(nodes), v); }
      forall v | v in Values(nodes) ensures v in Copies(before, names) {
        var y :| 0 <= y < |nodes| && nodes[y].Value() == v;
        assert nodes[y] in nodes;
        var z :| 0 <= z < |part.slurmNodes| && part.slurmNodes[z] == nodes[y];
        assert v == Values(part.slurmNodes)[z] == Mark(before, names)[z] && names[y] == nodes[y].name;
        assert before[z].name in names;
      }
      forall v | v in Copies(before, names) ensures v in Values(nodes) {
        var k :| 0 <= k < |before| && before[k].name in names && v == before[k].(state := Allocated);
        assert Values(part.slurmNodes)[k] == v && UniqueNames(Values(part.slurmNodes));
        part.SameNameSameNode(nodes, part.slurmNodes[k]);
        var y :| 0 <= y < |nodes| && nodes[y] == part.slurmNodes[k];
        assert Values(nodes)[y] == v;
      }
    }

    /** `partition_name in self.groups`: a later partition of the same name would win. */
    method FindPart(part: string) returns (i: int)
      requires Valid()
      ensures i == PartAt(model.parts, part)
    {
      i := -1;
      for k := 0 to |parts|
        invariant -1 <= i < k && (i >= 0 ==> parts[i].name == part) && forall j | i < j < k :: parts[j].name != part
      {
        if parts[k].name == part { i := k; }
      }
      assert forall j | 0 <= j < |parts| :: model.parts[j].name == parts[j].name;
    }

    /** The end of a successful request. */
    method Grant(i: nat, nodes: seq<SlurmNode>)
      requires Sound() && WellFormed(model) && i < |parts| && forall n | n in nodes :: n in parts[i].slurmNodes
      modifies this`model, this`groupAllocated, owned
      ensures Sound() && model == Take(old(model), i, NamesOf(nodes))
    {
      ghost var before := model.parts[i].nodes;
      assert PartOk(model.parts[i]);
      MarkAllocated(i, nodes);
      CopiesOfMarked(i, nodes, before);
      Hold(nodes);
    }

    /** `get_available_nodes_from_group`: update, validate, group by state, choose, mark and hold. */
    method GetAvailableNodesFromGroup(part: string, group: string, want: Want, exclude: seq<string>,
                                      sinfo: Result<seq<Node>>, squeue: Result<seq<Node>>)
      returns (answer: Result<seq<SlurmNode>>, ghost op: Op)
      requires Valid()
      modifies this, parts, owned
      ensures Valid() && (forall n | n in owned :: n in old(owned) || fresh(n))
      ensures op.Request? && op.reading.sinfo == sinfo && op.reading.squeue == squeue
      ensures op == Request(part, group, want, exclude, op.reading, op.names)
      ensures Fits(old(model), op) && (model, NamesIn(answer)) == Step(old(model), op)
    {
      ghost var before := model;
      var ok, r := Update(sinfo, squeue);
      op := Request(part, group, want, exclude, r, []);
      ghost var updated := model;
      if ok.Raised? {
        answer := Raised(ok.message);
      } else {
        ghost var names;
        answer, names := Serve(part, group, want, exclude);
        op := Request(part, group, want, exclude, r, names);
      }
      RequestInTwo(before, updated, ok, op);
    }

    method ChooseFromGroup(i: nat, j: nat, want: Want, exclude: seq<string>)
      returns (chosen: Result<seq<SlurmNode>>, ghost names: seq<string>)
      requires Valid() && i < |parts| && j < |parts[i].groups| && Readable(model.parts)
      ensures Enumerates(names, Members(parts[i].groups[j].specs))
      ensures NamesIn(chosen) == Pick(model.parts[i].nodes, names, exclude, want)
      ensures chosen.Ok? ==> forall n | n in chosen.value :: n in parts[i].slurmNodes
    {
      var nodes, order := GroupNodes(i, j);
      names := order;
      var pools := GroupByState(i, nodes, order, exclude);
      chosen := ChooseNodes(pools, want);
      NamesOfChoice(pools[0], pools[1], pools[2], pools[3], want);
      ChosenFrom(pools, want, parts[i].slurmNodes);
    }

    /** What follows the update. */
    method Serve(part: string, group: string, want: Want, exclude: seq<string>)
      returns (answer: Result<seq<SlurmNode>>, ghost names: seq<string>)
      requires Valid()
      modifies this`model, this`groupAllocated, owned
      ensures Valid() && (model, NamesIn(answer)) == SlurmModel.Serve(old(model), part, group, want, exclude, names)
      ensures OrderFits(old(model), part, group, names)
    {
      var failure, i, j := Validate(part, group);
      if failure.Some? { return Raised(failure.value), []; }
      answer, names := ServeGroup(part, group, i, j, want, exclude);
    }

    /** `validate_partition_and_group`, where `groups` reads every node list first. */
    method Validate(part: string, group: string) returns (failure: Option<string>, i: nat, j: nat)
      requires Valid()
      ensures failure == None ==> Found(part, group, i, j)
      ensures failure.Some? ==> Fails(part, group, failure.value)
    {
      i, j := 0, 0;
      var readable := AllReadable();
      if !readable { return Some("unreadable node list"), i, j; }
      var p := FindPart(part);
      if p < 0 { return Some("partition not found"), i, j; }
      assert model.parts[p].groups == parts[p].groups;
      var g := GroupAt(parts[p].groups, group);
      if g < 0 { return Some("group not found"), i, j; }
      return None, p, g;
    }

    /** Every request for that group raises. */
    ghost predicate Fails(part: string, group: string, message: string)
      reads this
    {
      && (forall want, exclude, names :: SlurmModel.Serve(model, part, group, want, exclude, names) == (model, Raised(message)))
      && (forall names :: OrderFits(model, part, group, names))
    }

    /** The request once partition and group are found. */
    method ServeGroup(part: string, group: string, i: nat, j: nat, want: Want, exclude: seq<string>)
      returns (answer: Result<seq<SlurmNode>>, ghost names: seq<string>)
      requires Valid() && Found(part, group, i, j)
      modifies this`model, this`groupAllocated, owned
      ensures Valid() && (model, NamesIn(answer)) == SlurmModel.Serve(old(model), part, group, want, exclude, names)
      ensures OrderFits(old(model), part, group, names)
    {
      ghost var before := model;
      assert model.parts[i].groups == parts[i].groups;
      var chosen;
      chosen, names := ChooseFromGroup(i, j, want, exclude);
      if chosen.Raised? { return Ok([]), names; }
      Grant(i, chosen.value);
      ServeGrants(before, part, group, want, exclude, names);
      GrantKeepsWellFormed(before, model, part, NamesOf(chosen.value));
      answer := Ok(chosen.value);
    }

    ghost predicate Found(part: string, group: string, i: nat, j: nat)
      reads this
    {
      && i < |parts| == |model.parts| && Readable(model.parts) && PartAt(model.parts, part) == i
      && j < |model.parts[i].groups| && GroupAt(model.parts[i].groups, group) == j
    }

    // ----- The end of a job -----

    /** `complete_job`, given what sacct prints. */
    method CompleteJob(spec: string) returns (r: Result<seq<string>>)
      requires Valid()
      modifies this`groupAllocated, this`model
      ensures Valid() && (model, r) == Step(old(model), Release(spec))
      ensures groupAllocated <= old(groupAllocated)
    {
      var nodeList := ParseNodeList(Strings.Without(Strip(spec), '|'));
      if nodeList.Raised? { return nodeList; }
      var toUnlock := set h | h in groupAllocated && h.name in nodeList.value;
      var held := groupAllocated - toUnlock;
      ghost var s := Step(model, Release(spec)).0;
      assert ValuesOf(held) == s.holds;
      Become(held, s);
      r := Ok([]);
    }

    // ----- Node specifications -----

    /** One turn of the loop in `parse_nodes`. */
    method ParseSpec(spec: string, exclude: seq<string>, sinfo: Result<seq<Node>>, squeue: Result<seq<Node>>)
      returns (r: Result<seq<string>>, ghost feed: Feed)
      requires Valid()
      modifies this, parts, owned
      ensures Valid() && (forall n | n in owned :: n in old(owned) || fresh(n))
      ensures FeedFits(old(model), spec, exclude, feed) && feed.reading.sinfo == sinfo && feed.reading.squeue == squeue
      ensures (model, r) == SlurmSpecs.ParseSpec(old(model), spec, exclude, feed)
    {
      feed := Feed(Reading(sinfo, squeue, []), []);
      if ':' in spec {
        var parts := Split(spec, ':');
        if |parts| != 3 { return Raised("Format should be partition:group:num_nodes"), feed; }
        var want := WantOf(parts[2]);
        if want == None { return Raised("invalid literal for int"), feed; }
        var answer, op := GetAvailableNodesFromGroup(parts[0], parts[1], want.value, exclude, sinfo, squeue);
        feed := Feed(op.reading, op.names);
        r := NamesIn(answer);
      } else {
        var names := ParseNodeList(spec);
        if names.Raised? { return names, feed; }
        r := Ok(Except(names.value, exclude));
      }
    }

    static method ExpandExcluded(exclude: seq<string>) returns (r: Result<seq<string>>)
      ensures r == Excluded(exclude)
    {
      r := Ok([]);
      for k := 0 to |exclude|
        invariant r == Excluded(exclude[..k])
      {
        assert exclude[..k + 1][..k] == exclude[..k];
        if r.Ok? {
          var names := ParseNodeList(exclude[k]);
          r := Append(r, names);
        }
      }
      assert exclude[..|exclude|] == exclude;
    }

    /** One turn of the loop. */
    method ParseNext(k: nat, specs: seq<string>, exclude: seq<string>, cluster: nat -> (Result<seq<Node>>, Result<seq<Node>>),
                     ghost c: Call, ghost before: System, ghost names: seq<string>)
      returns (more: Result<seq<string>>, ghost next: Call)
      requires Valid() && k == |c.shares| < |specs| && Collects(c, before, specs, exclude, model, names) && Reads(c, cluster)
      modifies this, parts, owned
      ensures Valid() && (forall n | n in owned :: n in old(owned) || fresh(n))
      ensures Reaches(next, before, specs, exclude) && |next.shares| == k + 1 && model == next.states[k + 1] && Reads(next, cluster)
      ensures if more.Ok? then Collects(next, before, specs, exclude, model, names + more.value)
              else Failed(next.shares) && Total(next.shares) == more
    {
      var r, feed := ParseSpec(specs[k], exclude, cluster(k).0, cluster(k).1);
      CallNext(c, before, specs, exclude, model, r, feed);
      more, next := r, Call(c.states + [model], c.shares + [r], c.feeds + [feed]);
    }

    /** The loop of `parse_nodes`; `cluster(k)` is what sinfo and squeue print for the `k`-th specification. */
    method ParseAll(specs: seq<string>, exclude: seq<string>, cluster: nat -> (Result<seq<Node>>, Result<seq<Node>>))
      returns (r: Result<seq<string>>, ghost c: Call)
      requires Valid()
      modifies this, parts, owned
      ensures Valid() && Reaches(c, old(model), specs, exclude) && (|c.shares| == |specs| || Failed(c.shares))
      ensures Reads(c, cluster) && model == c.states[|c.shares|] && r == Total(c.shares)
    {
      ghost var before := model;
      var names: seq<string> := [];
      c := Call([model], [], []);
      for k := 0 to |specs|
        invariant Valid() && (forall n | n in owned :: n in old(owned) || fresh(n)) && Reads(c, cluster)
        invariant Collects(c, before, specs, exclude, model, names) && |c.shares| == k
      {
        var more, next := ParseNext(k, specs, exclude, cluster, c, before, names);
        c := next;
        if more.Raised? { return more, c; }
        names := names + more.value;
      }
      r := Ok(names);
    }

    method ParseNodes(specs: seq<string>, exclude: seq<string>, cluster: nat -> (Result<seq<Node>>, Result<seq<Node>>))
      returns (r: Result<seq<string>>, ghost c: Call)
      requires Valid()
      modifies this, parts, owned
      ensures Valid() && IsCall(c, old(model), specs, exclude)
      ensures Reads(c, cluster) && model == c.states[|c.shares|] && r == ParsedNodes(exclude, c.shares)
    {
      c := Call([model], [], []);
      var out := ExpandExcluded(exclude);
      if out.Raised? { return out, c; }
      r, c := ParseAll(specs, out.value, cluster);
      if r.Ok? { r := Ok(Dedup(r.value)); }
    }

    method GetNodesBySpec(count: int, specs: seq<string>, exclude: seq<string>,
                          cluster: nat -> (Result<seq<Node>>, Result<seq<Node>>))
      returns (r: Result<(int, seq<string>)>, ghost c: Call)
      requires Valid()
      modifies this, parts, owned
      ensures Valid() && IsCall(c, old(model), specs, exclude)
      ensures Reads(c, cluster) && model == c.states[|c.shares|] && r == NodesOf(count, specs, exclude, c)
    {
      var parsed, call := ParseNodes(specs, exclude, cluster);
      c := call;
      if parsed.Raised? { return Raised(parsed.message), c; }
      if parsed.value != [] { return Ok((|parsed.value|, Sorted(parsed.value, StringLe))), c; }
      if specs != [] { return Raised("resolved to an empty node list"), c; }
      r := Ok((count, []));
    }
  }

  /** Each request of the call read what the cluster printed for its specification. */
  predicate Reads(c: Call, cluster: nat -> (Result<seq<Node>>, Result<seq<Node>>)) {
    forall k | 0 <= k < |c.feeds| :: (c.feeds[k].reading.sinfo, c.feeds[k].reading.squeue) == cluster(k)
  }
}
