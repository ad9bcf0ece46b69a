/** The node allocator of `SlurmSystem` on values: what `update`, a group request and the end of a job
    do to the partitions' nodes and to the holds.  Class `SlurmAllocator.SlurmSystem` is proved to
    compute these functions; `SlurmUpdates` and `SlurmHolds` prove what they guarantee. */
module SlurmModel {
  import opened Basics
  import opened Strings
  import opened NodeList

  /** The states that the allocator tells apart. */
  datatype NodeState = Idle | Completing | Allocated | Reserved | Unknown | Other(code: string)

  datatype Node = Node(name: string, partition: string, state: NodeState, user: string)

  datatype NodeGroup = NodeGroup(name: string, specs: seq<string>)

  datatype Partition = Partition(name: string, groups: seq<NodeGroup>, nodes: seq<Node>)

  /** `holds` is `group_allocated`: copies, so plain values. */
  datatype System = System(name: string, parts: seq<Partition>, holds: set<Node>)

  /** What an update reads: the two commands, each of which may be unreadable, and the holds in the
      order in which Python happens to enumerate the set. */
  datatype Reading = Reading(sinfo: Result<seq<Node>>, squeue: Result<seq<Node>>, holds: seq<Node>)

  datatype Want = Count(n: int) | MaxAvail | Nonsense

  /** `names` is the order in which Python enumerates the group's set of names. */
  datatype Op =
    | Refresh(reading: Reading)
    | Request(part: string, group: string, want: Want, exclude: seq<string>, reading: Reading, names: seq<string>)
    | Release(spec: string)

  predicate Distinct<T(==)>(s: seq<T>) {
    forall i, j | 0 <= i < j < |s| :: s[i] != s[j]
  }

  ghost predicate Enumerates<T(!new)>(order: seq<T>, s: set<T>) {
    Distinct(order) && (forall x :: x in order <==> x in s)
  }

  // ----- update -----

  /** The first node with that name; the end when there is none. */
  function Find(nodes: seq<Node>, name: string): (k: nat)
    ensures k <= |nodes| && (k < |nodes| ==> nodes[k].name == name)
    ensures forall i | 0 <= i < k :: nodes[i].name != name
  {
    if nodes == [] || nodes[0].name == name then 0
    else
      assert forall i | 1 <= i < |nodes| :: nodes[i] == nodes[1..][i - 1];
      1 + Find(nodes[1..], name)
  }

  function Overwrite(nodes: seq<Node>, e: Node, insertNew: bool): seq<Node> {
    var k := Find(nodes, e.name);
    if k < |nodes| then nodes[k := nodes[k].(state := e.state, user := e.user)]
    else if insertNew then nodes + [e]
    else nodes
  }

  /** What a list of entries does to one partition. */
  function Absorb(part: Partition, entries: seq<Node>, insertNew: bool): (r: Partition)
    ensures r.name == part.name && r.groups == part.groups
  {
    if entries == [] then part
    else
      var e, p := entries[|entries| - 1], Absorb(part, entries[..|entries| - 1], insertNew);
      if e.partition == part.name then p.(nodes := Overwrite(p.nodes, e, insertNew)) else p
  }

  /** `update_nodes_state_and_user`. */
  function AbsorbAll(parts: seq<Partition>, entries: seq<Node>, insertNew: bool): (r: seq<Partition>)
    ensures |r| == |parts|
  {
    seq(|parts|, i requires 0 <= i < |parts| => Absorb(parts[i], entries, insertNew))
  }

  /** `update`: an unreadable command ends it where it stands. */
  function Update(sys: System, r: Reading): (System, Result<()>) {
    if r.sinfo.Raised? then (sys, Raised(r.sinfo.message))
    else
      var s := sys.(parts := AbsorbAll(sys.parts, r.sinfo.value, true));
      if r.squeue.Raised? then (s, Raised(r.squeue.message))
      else (s.(parts := AbsorbAll(AbsorbAll(s.parts, r.squeue.value, false), r.holds, false)), Ok(()))
  }

  // ----- Groups -----

  /** The last partition with that name, as in a dict filled in order; -1 when there is none. */
  function PartAt(parts: seq<Partition>, name: string): (i: int)
    ensures -1 <= i < |parts|
    ensures i >= 0 ==> parts[i].name == name
    ensures forall k | i < k < |parts| :: parts[k].name != name
  {
    if parts == [] then -1
    else if parts[|parts| - 1].name == name then |parts| - 1
    else PartAt(parts[..|parts| - 1], name)
  }

  function GroupAt(groups: seq<NodeGroup>, name: string): (i: int)
    ensures -1 <= i < |groups|
    ensures i >= 0 ==> groups[i].name == name
    ensures forall k | i < k < |groups| :: groups[k].name != name
  {
    if groups == [] then -1
    else if groups[|groups| - 1].name == name then |groups| - 1
    else GroupAt(groups[..|groups| - 1], name)
  }

  /** Every node list of every group can be read. */
  predicate Readable(parts: seq<Partition>) {
    forall i | 0 <= i < |parts| :: GroupsRead(parts[i].groups)
  }

  predicate GroupsRead(groups: seq<NodeGroup>) {
    forall j | 0 <= j < |groups| :: SpecsRead(groups[j].specs)
  }

  predicate SpecsRead(specs: seq<string>) {
    forall k | 0 <= k < |specs| :: Parsed(specs[k]).Ok?
  }

  function SetOf(names: seq<string>): set<string> {
    set n | n in names
  }

  /** The set of names a group's node lists mention. */
  function Members(specs: seq<string>): set<string> {
    if specs == [] then {}
    else
      var last := Parsed(specs[|specs| - 1]);
      Members(specs[..|specs| - 1]) + if last.Ok? then SetOf(last.value) else {}
  }

  /** Some node list that can be read mentions the name. */
  predicate Mentions(specs: seq<string>, n: string) {
    exists k | 0 <= k < |specs| :: MentionsAt(specs[k], n)
  }

  predicate MentionsAt(spec: string, n: string) {
    Parsed(spec).Ok? && n in Parsed(spec).value
  }

  lemma MentionsLast(specs: seq<string>, n: string)
    requires specs != []
    ensures Mentions(specs, n) <==> Mentions(specs[..|specs| - 1], n) || MentionsAt(specs[|specs| - 1], n)
  {
    var front := specs[..|specs| - 1];
    if k :| 0 <= k < |front| && MentionsAt(front[k], n) {
      assert MentionsAt(specs[k], n);
    }
    if k :| 0 <= k < |specs| && MentionsAt(specs[k], n) {
      assert k < |front| ==> front[k] == specs[k];
    }
  }

  lemma {:induction false} MembersAreMentioned(specs: seq<string>, n: string)
    ensures n in Members(specs) <==> Mentions(specs, n)
    decreases |specs|
  {
    if specs != [] {
      MembersAreMentioned(specs[..|specs| - 1], n);
      MentionsLast(specs, n);
    }
  }

  /** A name that is no node of the partition stands for a node in an unknown state. */
  function StateOf(nodes: seq<Node>, name: string): NodeState {
    var k := Find(nodes, name);
    if k < |nodes| then nodes[k].state else Unknown
  }

  /** `group_nodes_by_state`, one state: the names in order, without the excluded ones. */
  function Pool(nodes: seq<Node>, names: seq<string>, exclude: seq<string>, state: NodeState): seq<string> {
    if names == [] then []
    else
      var front, n := Pool(nodes, names[..|names| - 1], exclude, state), names[|names| - 1];
      if n !in exclude && StateOf(nodes, n) == state then front + [n] else front
  }

  // ----- Allocation -----

  /** The choice made by `allocate_nodes` between what each state offers. */
  function Choose<T>(idle: seq<T>, completing: seq<T>, busy: seq<T>, reserved: seq<T>, want: Want): Result<seq<T>> {
    match want
    case MaxAvail =>
      var free := idle + completing + reserved;
      if free == [] then Raised("no nodes are available") else Ok(free)
    case Count(n) =>
      var all := idle + completing + busy + reserved;
      if n <= 0 then Ok([])
      else if n <= |all| then Ok(all[..n])
      else Raised("not enough nodes")
    case Nonsense => Raised("must be an integer or 'max_avail'")
  }

  function Pick(nodes: seq<Node>, names: seq<string>, exclude: seq<string>, want: Want): Result<seq<string>> {
    Choose(Pool(nodes, names, exclude, Idle), Pool(nodes, names, exclude, Completing),
           Pool(nodes, names, exclude, Allocated), Pool(nodes, names, exclude, Reserved), want)
  }

  /** The nodes with these names become allocated. */
  function Mark(nodes: seq<Node>, names: seq<string>): (r: seq<Node>)
    ensures |r| == |nodes|
  {
    seq(|nodes|, k requires 0 <= k < |nodes| =>
      if nodes[k].name in names then nodes[k].(state := Allocated) else nodes[k])
  }

  function Copies(nodes: seq<Node>, names: seq<string>): set<Node> {
    set k | 0 <= k < |nodes| && nodes[k].name in names :: nodes[k].(state := Allocated)
  }

  /** The end of `allocate_nodes`: mark the nodes and hold copies of them. */
  function Take(sys: System, i: nat, names: seq<string>): System
    requires i < |sys.parts|
  {
    var part := sys.parts[i];
    sys.(parts := sys.parts[i := part.(nodes := Mark(part.nodes, names))],
         holds := sys.holds + Copies(part.nodes, names))
  }

  /** `validate_partition_and_group`, `group_nodes_by_state` and `allocate_nodes` after the update. */
  function Serve(sys: System, part: string, group: string, want: Want, exclude: seq<string>, names: seq<string>)
    : (System, Result<seq<string>>)
  {
    var i := PartAt(sys.parts, part);
    if !Readable(sys.parts) then (sys, Raised("unreadable node list"))
    else if i < 0 then (sys, Raised("partition not found"))
    else if GroupAt(sys.parts[i].groups, group) < 0 then (sys, Raised("group not found"))
    else
      match Pick(sys.parts[i].nodes, names, exclude, want)
      case Raised(_) => (sys, Ok([]))
      case Ok(picked) => (Take(sys, i, picked), Ok(picked))
  }

  /** One operation of the allocator; a request answers with the names it hands out. */
  function Step(sys: System, op: Op): (System, Result<seq<string>>) {
    match op
    case Refresh(r) =>
      var (s, ok) := Update(sys, r);
      (s, if ok.Raised? then Raised(ok.message) else Ok([]))
    case Request(part, group, want, exclude, r, names) =>
      var (s, ok) := Update(sys, r);
      if ok.Raised? then (s, Raised(ok.message)) else Serve(s, part, group, want, exclude, names)
    case Release(spec) =>
      match Parsed(Without(Strip(spec), '|'))
      case Raised(m) => (sys, Raised(m))
      case Ok(nodeList) => (sys.(holds := set h | h in sys.holds && h.name !in nodeList), Ok([]))
  }

  /** The update that the operation begins with was complete. */
  predicate ReadsAll(op: Op) {
    !op.Release? && op.reading.sinfo.Ok? && op.reading.squeue.Ok?
  }

  /** If there is such a group, `names` is an order of its set of names. */
  ghost predicate OrderFits(sys: System, part: string, group: string, names: seq<string>) {
    var i := PartAt(sys.parts, part);
    Readable(sys.parts) && i >= 0 ==>
      var j := GroupAt(sys.parts[i].groups, group);
      j >= 0 ==> Enumerates(names, Members(sys.parts[i].groups[j].specs))
  }

  /** The orders in `op` are orders of the sets it gets to visit. */
  ghost predicate Fits(sys: System, op: Op) {
    ReadsAll(op) ==>
      && Enumerates(op.reading.holds, sys.holds)
      && (op.Request? ==> OrderFits(sys, op.part, op.group, op.names))
  }

  // ----- The state invariant -----

  predicate UniqueNames(nodes: seq<Node>) {
    forall i, j | 0 <= i < j < |nodes| :: nodes[i].name != nodes[j].name
  }

  predicate PartOk(part: Partition) {
    UniqueNames(part.nodes) && forall k | 0 <= k < |part.nodes| :: part.nodes[k].partition == part.name
  }

  /** Partitions have different names, their nodes know where they are, and names do not repeat. */
  predicate WellFormed(sys: System) {
    && (forall i, j | 0 <= i < j < |sys.parts| :: sys.parts[i].name != sys.parts[j].name)
    && (forall i | 0 <= i < |sys.parts| :: PartOk(sys.parts[i]))
    && (forall h | h in sys.holds :: h.state == Allocated)
  }

  predicate Has(nodes: seq<Node>, name: string) {
    exists k | 0 <= k < |nodes| :: nodes[k].name == name
  }

  predicate Held(sys: System, part: string, name: string) {
    exists h | h in sys.holds :: h.partition == part && h.name == name
  }

  /** Every node that is held is allocated in its partition. */
  predicate HoldsStand(sys: System) {
    forall i, k | 0 <= i < |sys.parts| && 0 <= k < |sys.parts[i].nodes| ::
      Held(sys, sys.parts[i].name, sys.parts[i].nodes[k].name) ==> sys.parts[i].nodes[k].state == Allocated
  }

  /** Every hold is on a node of its partition. */
  predicate HoldsArePlaced(sys: System) {
    forall h | h in sys.holds :: exists i | 0 <= i < |sys.parts| ::
      sys.parts[i].name == h.partition && Has(sys.parts[i].nodes, h.name)
  }

  // ----- Histories -----

  /** State `k + 1` is what operation `k` makes of state `k`. */
  ghost predicate Follows(states: seq<System>, ops: seq<Op>, k: nat)
    requires k < |ops| && |states| == |ops| + 1
  {
    Fits(states[k], ops[k]) && states[k + 1] == Step(states[k], ops[k]).0
  }

  /** Any operations, one after the other, on a system without holds. */
  ghost predicate History(states: seq<System>, ops: seq<Op>) {
    && |states| == |ops| + 1 && WellFormed(states[0]) && states[0].holds == {}
    && forall k | 0 <= k < |ops| :: Follows(states, ops, k)
  }
}
