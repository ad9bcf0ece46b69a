/** Node specifications: `parse_nodes` and `get_nodes_by_spec` as functions of what their requests read. */
module SlurmSpecs {
  import opened Basics
  import opened Sorting
  import opened Strings
  import opened NodeList
  import opened SlurmModel

  /** What one group request reads besides its arguments. */
  datatype Feed = Feed(reading: Reading, names: seq<string>)

  /** The expansion of `exclude_nodes`. */
  function Excluded(specs: seq<string>): Result<seq<string>> {
    if specs == [] then Ok([])
    else Append(Excluded(specs[..|specs| - 1]), Parsed(specs[|specs| - 1]))
  }

  function Except(names: seq<string>, exclude: seq<string>): seq<string> {
    if names == [] then []
    else
      var front, n := Except(names[..|names| - 1], exclude), names[|names| - 1];
      if n in exclude then front else front + [n]
  }

  /** The third part of a group specification. */
  function WantOf(s: string): Option<Want> {
    if s == "max_avail" then Some(MaxAvail)
    else match PyInt(s) case Some(n) => Some(Count(n)) case None => None
  }

  /** One specification: `partition:group:count`, or a node list. */
  function ParseSpec(sys: System, spec: string, exclude: seq<string>, feed: Feed): (System, Result<seq<string>>) {
    if ':' in spec then
      var parts := Split(spec, ':');
      if |parts| != 3 then (sys, Raised("Format should be partition:group:num_nodes"))
      else if WantOf(parts[2]) == None then (sys, Raised("invalid literal for int"))
      else Step(sys, Request(parts[0], parts[1], WantOf(parts[2]).value, exclude, feed.reading, feed.names))
    else
      match Parsed(spec)
      case Raised(m) => (sys, Raised(m))
      case Ok(names) => (sys, Ok(Except(names, exclude)))
  }

  /** The orders in a feed are orders of the sets that the request visits. */
  ghost predicate FeedFits(sys: System, spec: string, exclude: seq<string>, feed: Feed) {
    var parts := Split(spec, ':');
    ':' in spec && |parts| == 3 && WantOf(parts[2]).Some? ==>
      Fits(sys, Request(parts[0], parts[1], WantOf(parts[2]).value, exclude, feed.reading, feed.names))
  }

  /** A run of the loop over the specifications: the system before each one that is reached and after
      the last, what each of them contributed, and what its request read. */
  datatype Call = Call(states: seq<System>, shares: seq<Result<seq<string>>>, feeds: seq<Feed>)

  predicate Shaped(c: Call, specs: seq<string>) {
    |c.states| == |c.shares| + 1 && |c.feeds| == |c.shares| <= |specs|
  }

  /** The `k`-th specification took one state to the next. */
  ghost predicate SpecAt(c: Call, specs: seq<string>, exclude: seq<string>, k: nat)
    requires Shaped(c, specs) && k < |c.shares|
  {
    && (c.states[k + 1], c.shares[k]) == ParseSpec(c.states[k], specs[k], exclude, c.feeds[k])
    && FeedFits(c.states[k], specs[k], exclude, c.feeds[k])
  }

  /** The loop so far: none but the last specification has raised. */
  ghost predicate Reaches(c: Call, sys: System, specs: seq<string>, exclude: seq<string>) {
    && Shaped(c, specs) && c.states[0] == sys
    && (forall k | 0 <= k < |c.shares| :: SpecAt(c, specs, exclude, k))
    && (forall k | 0 <= k < |c.shares| - 1 :: c.shares[k].Ok?)
  }

  predicate Failed(shares: seq<Result<seq<string>>>) {
    shares != [] && shares[|shares| - 1].Raised?
  }

  /** The whole loop: it ends with the specifications or with the first one that raises; it does not begin
      when an excluded list cannot be read. */
  ghost predicate IsCall(c: Call, sys: System, specs: seq<string>, exclude: seq<string>) {
    match Excluded(exclude)
    case Raised(_) => c == Call([sys], [], [])
    case Ok(out) => Reaches(c, sys, specs, out) && (|c.shares| == |specs| || Failed(c.shares))
  }

  /** All that was contributed, one after the other; or the exception. */
  function Total(shares: seq<Result<seq<string>>>): Result<seq<string>> {
    if shares == [] then Ok([]) else Append(Total(shares[..|shares| - 1]), shares[|shares| - 1])
  }

  /** `list(dict.fromkeys(names))`. */
  function Dedup(names: seq<string>): seq<string> {
    if names == [] then []
    else
      var front, n := Dedup(names[..|names| - 1]), names[|names| - 1];
      if n in front then front else front + [n]
  }

  /** What `parse_nodes` returns. */
  function ParsedNodes(exclude: seq<string>, shares: seq<Result<seq<string>>>): Result<seq<string>> {
    var out, total := Excluded(exclude), Total(shares);
    if out.Raised? then out else if total.Raised? then total else Ok(Dedup(total.value))
  }

  /** What `get_nodes_by_spec` makes of it. */
  function Resolved(count: int, specs: seq<string>, parsed: Result<seq<string>>): Result<(int, seq<string>)> {
    match parsed
    case Raised(m) => Raised(m)
    case Ok(names) =>
      if names != [] then Ok((|names|, Sorted(names, StringLe)))
      else if specs != [] then Raised("resolved to an empty node list")
      else Ok((count, []))
  }

  function NodesOf(count: int, specs: seq<string>, exclude: seq<string>, c: Call): Result<(int, seq<string>)> {
    Resolved(count, specs, ParsedNodes(exclude, c.shares))
  }

  // ----- What a specification asks for -----

  /** The exclusions can be expanded exactly when each of them can be read, and then they are the names that any
      of them mentions. */
  lemma {:induction false} ExcludedIsMentioned(specs: seq<string>)
    ensures Excluded(specs).Ok? <==> SpecsRead(specs)
    ensures Excluded(specs).Ok? ==> forall n :: n in Excluded(specs).value <==> Mentions(specs, n)
    decreases |specs|
  {
    if specs != [] {
      var front, last := specs[..|specs| - 1], specs[|specs| - 1];
      ExcludedIsMentioned(front);
      assert specs == front + [last];
      forall n ensures Mentions(specs, n) <==> Mentions(front, n) || MentionsAt(last, n) {
        MentionsLast(specs, n);
      }
    }
  }

  /** A count is written in digits; `max_avail` is the only word. */
  lemma CountIsRead(n: nat)
    ensures WantOf(Dec(n)) == Some(Count(n)) && WantOf("max_avail") == Some(MaxAvail)
  {
    PyIntDigits(Dec(n));
    ValDec(n);
    assert "max_avail"[0] == 'm' && !IsDigit('m');
  }

  /** "partition:group:4" asks the group of the partition for four nodes. */
  lemma GroupSpecAsks(sys: System, part: string, group: string, third: string, exclude: seq<string>, feed: Feed)
    requires ':' !in part && ':' !in group && ':' !in third
    ensures ParseSpec(sys, part + ":" + group + ":" + third, exclude, feed)
         == match WantOf(third)
            case None => (sys, Raised("invalid literal for int"))
            case Some(want) => Step(sys, Request(part, group, want, exclude, feed.reading, feed.names))
  {
    var spec := part + [':'] + (group + [':'] + third);
    assert spec == part + ":" + group + ":" + third && spec[|part|] == ':';
    SplitFirst(part, ':', group + [':'] + third);
    SplitFirst(group, ':', third);
    SplitNone(third, ':');
  }

  lemma {:induction false} FieldsOf(spec: string)
    ensures |Split(spec, ':')| == 1 + multiset(spec)[':']
    decreases |spec|
  {
    if spec != [] {
      FieldsOf(spec[1..]);
      assert spec == [spec[0]] + spec[1..];
    }
  }

  /** Any other number of fields raises. */
  lemma OtherFieldsRaise(sys: System, spec: string, exclude: seq<string>, feed: Feed)
    requires multiset(spec)[':'] != 0 && multiset(spec)[':'] != 2
    ensures ParseSpec(sys, spec, exclude, feed).0 == sys && ParseSpec(sys, spec, exclude, feed).1.Raised?
  {
    FieldsOf(spec);
    assert ':' in multiset(spec);
  }

  /** A node list contributes the names it mentions, without the excluded ones, in their order; or raises when it
      cannot be read; and asks the allocator for nothing. */
  lemma NodeListContributes(sys: System, spec: string, exclude: seq<string>, feed: Feed)
    requires ':' !in spec
    ensures var (s, r) := ParseSpec(sys, spec, exclude, feed);
            && s == sys && r.Ok? == Parsed(spec).Ok?
            && (r.Ok? ==> forall n :: n in r.value <==> MentionsAt(spec, n) && n !in exclude)
  {
    if Parsed(spec).Ok? {
      ExceptAvoids(Parsed(spec).value, exclude);
    }
  }

  // ----- What they return -----

  lemma {:induction false} PoolAvoids(nodes: seq<Node>, names: seq<string>, exclude: seq<string>, state: NodeState)
    ensures forall n | n in Pool(nodes, names, exclude, state) :: n !in exclude
    decreases |names|
  {
    if names != [] {
      PoolAvoids(nodes, names[..|names| - 1], exclude, state);
    }
  }

  lemma PickAvoids(nodes: seq<Node>, names: seq<string>, exclude: seq<string>, want: Want)
    ensures var r := Pick(nodes, names, exclude, want); r.Ok? ==> forall n | n in r.value :: n !in exclude
  {
    PoolAvoids(nodes, names, exclude, Idle);
    PoolAvoids(nodes, names, exclude, Completing);
    PoolAvoids(nodes, names, exclude, Allocated);
    PoolAvoids(nodes, names, exclude, Reserved);
  }

  lemma {:induction false} ExceptAvoids(names: seq<string>, exclude: seq<string>)
    ensures forall n :: n in Except(names, exclude) <==> n in names && n !in exclude
    decreases |names|
  {
    if names != [] {
      ExceptAvoids(names[..|names| - 1], exclude);
      assert names == names[..|names| - 1] + [names[|names| - 1]];
    }
  }

  lemma SpecAvoids(sys: System, spec: string, exclude: seq<string>, feed: Feed)
    ensures var r := ParseSpec(sys, spec, exclude, feed).1; r.Ok? ==> forall n | n in r.value :: n !in exclude
  {
    if ':' in spec {
      var parts := Split(spec, ':');
      var s := Update(sys, feed.reading).0;
      if |parts| == 3 && WantOf(parts[2]).Some? && PartAt(s.parts, parts[0]) >= 0 {
        PickAvoids(s.parts[PartAt(s.parts, parts[0])].nodes, feed.names, exclude, WantOf(parts[2]).value);
      }
    } else if Parsed(spec).Ok? {
      ExceptAvoids(Parsed(spec).value, exclude);
    }
  }

  /** Some specification contributed the name. */
  predicate Contributed(shares: seq<Result<seq<string>>>, n: string) {
    exists k | 0 <= k < |shares| :: shares[k].Ok? && n in shares[k].value
  }

  predicate SomeRaised(shares: seq<Result<seq<string>>>) {
    exists k | 0 <= k < |shares| :: shares[k].Raised?
  }

  lemma ContributedNext(shares: seq<Result<seq<string>>>, r: Result<seq<string>>, n: string)
    ensures Contributed(shares + [r], n) <==> Contributed(shares, n) || (r.Ok? && n in r.value)
  {
    var longer := shares + [r];
    if k :| 0 <= k < |shares| && shares[k].Ok? && n in shares[k].value {
      assert longer[k].Ok? && n in longer[k].value;
    }
    if r.Ok? && n in r.value {
      assert longer[|shares|].Ok? && n in longer[|shares|].value;
    }
  }

  lemma SomeRaisedNext(shares: seq<Result<seq<string>>>, r: Result<seq<string>>)
    ensures SomeRaised(shares + [r]) <==> SomeRaised(shares) || r.Raised?
  {
    var longer := shares + [r];
    if k :| 0 <= k < |shares| && shares[k].Raised? {
      assert longer[k].Raised?;
    }
    if r.Raised? {
      assert longer[|shares|].Raised?;
    }
  }

  /** The names collected are exactly the contributed ones, and the loop raises exactly when one of the
      specifications it reaches does. */
  lemma {:induction false} AllContributed(shares: seq<Result<seq<string>>>)
    ensures Total(shares).Raised? <==> SomeRaised(shares)
    ensures Total(shares).Ok? ==> forall n :: n in Total(shares).value <==> Contributed(shares, n)
    decreases |shares|
  {
    if shares != [] {
      var front, last := shares[..|shares| - 1], shares[|shares| - 1];
      AllContributed(front);
      assert shares == front + [last];
      SomeRaisedNext(front, last);
      forall n ensures Contributed(shares, n) <==> Contributed(front, n) || (last.Ok? && n in last.value) {
        ContributedNext(front, last, n);
      }
    }
  }

  lemma {:induction false} DedupKeeps(names: seq<string>)
    ensures Distinct(Dedup(names)) && (forall n :: n in Dedup(names) <==> n in names)
    decreases |names|
  {
    if names != [] {
      DedupKeeps(names[..|names| - 1]);
      assert names == names[..|names| - 1] + [names[|names| - 1]];
    }
  }

  lemma SortedDistinct(names: seq<string>)
    requires Distinct(names)
    ensures var s := Sorted(names, StringLe);
            Distinct(s) && |s| == |names| && Ordered(s, StringLe) && forall n :: n in s <==> n in names
  {
    var s := Sorted(names, StringLe);
    StringLeTotal();
    SortedKeeps(names, StringLe);
    forall n ensures n in s <==> n in names {
      assert n in multiset(s) <==> n in multiset(names);
    }
    forall i, j | 0 <= i < j < |s| ensures s[i] != s[j] {
      CountOnce(names, s[i]);
      CountTwice(s, i, j);
    }
  }

  /** No contribution holds an excluded name. */
  lemma ContributionsAvoid(c: Call, sys: System, specs: seq<string>, exclude: seq<string>, n: string)
    requires Reaches(c, sys, specs, exclude) && Contributed(c.shares, n)
    ensures n !in exclude
  {
    var k :| 0 <= k < |c.shares| && c.shares[k].Ok? && n in c.shares[k].value;
    assert SpecAt(c, specs, exclude, k);
    SpecAvoids(c.states[k], specs[k], exclude, c.feeds[k]);
  }

  /** Without specifications the count comes back with no names.  With specifications the call raises
      or returns a non-empty, sorted list of different names, as many as it says, made of exactly what
      the specifications contributed and without any excluded name. */
  lemma NodesBySpec(c: Call, sys: System, count: int, specs: seq<string>, exclude: seq<string>)
    requires IsCall(c, sys, specs, exclude)
    ensures var r := NodesOf(count, specs, exclude, c);
            && (specs == [] ==> c.states == [sys])
            && (specs == [] && SpecsRead(exclude) ==> r == Ok((count, [])))
            && (specs != [] && r.Ok? ==>
                  && SpecsRead(exclude) && r.value.1 != [] && r.value.0 == |r.value.1|
                  && Ordered(r.value.1, StringLe) && Distinct(r.value.1)
                  && (forall n | n in r.value.1 :: !Mentions(exclude, n))
                  && forall n :: n in r.value.1 <==> Contributed(c.shares, n))
  {
    var r := NodesOf(count, specs, exclude, c);
    ExcludedIsMentioned(exclude);
    if specs != [] && r.Ok? {
      AllContributed(c.shares);
      DedupKeeps(Total(c.shares).value);
      SortedDistinct(Dedup(Total(c.shares).value));
      forall n | n in r.value.1 ensures !Mentions(exclude, n) {
        ContributionsAvoid(c, sys, specs, Excluded(exclude).value, n);
      }
    }
  }

  /** The call raises exactly when an excluded list cannot be read, a specification that is reached
      raises, or there are specifications and none contributes a name. */
  lemma NodesBySpecRaises(c: Call, sys: System, count: int, specs: seq<string>, exclude: seq<string>)
    requires IsCall(c, sys, specs, exclude)
    ensures NodesOf(count, specs, exclude, c).Raised? <==>
              !SpecsRead(exclude) || SomeRaised(c.shares) || (specs != [] && forall n :: !Contributed(c.shares, n))
  {
    var total := Total(c.shares);
    ExcludedIsMentioned(exclude);
    AllContributed(c.shares);
    if total.Ok? {
      DedupKeeps(total.value);
      if Dedup(total.value) != [] {
        assert Dedup(total.value)[0] in total.value;
      }
    }
  }

  // ----- Calls with node lists only -----

  predicate AllLists(specs: seq<string>) {
    forall k | 0 <= k < |specs| :: ':' !in specs[k]
  }

  /** Each share is what its node list mentions, without the excluded names. */
  lemma ShareOfList(c: Call, sys: System, specs: seq<string>, out: seq<string>, k: nat)
    requires Reaches(c, sys, specs, out) && AllLists(specs) && k < |c.shares|
    ensures c.shares[k].Ok? == Parsed(specs[k]).Ok?
    ensures c.shares[k].Ok? ==> forall n :: n in c.shares[k].value <==> MentionsAt(specs[k], n) && n !in out
  {
    assert SpecAt(c, specs, out, k);
    NodeListContributes(c.states[k], specs[k], out, c.feeds[k]);
  }

  lemma ListsRaise(c: Call, sys: System, specs: seq<string>, out: seq<string>)
    requires Reaches(c, sys, specs, out) && AllLists(specs) && (|c.shares| == |specs| || Failed(c.shares))
    ensures SomeRaised(c.shares) <==> !SpecsRead(specs)
  {
    forall k | 0 <= k < |c.shares| ensures c.shares[k].Ok? == Parsed(specs[k]).Ok? {
      ShareOfList(c, sys, specs, out, k);
    }
    if Failed(c.shares) {
      assert c.shares[|c.shares| - 1].Raised?;
    }
  }

  lemma ListsContribute(c: Call, sys: System, specs: seq<string>, out: seq<string>, n: string)
    requires Reaches(c, sys, specs, out) && AllLists(specs) && |c.shares| == |specs| && SpecsRead(specs)
    ensures Contributed(c.shares, n) <==> Mentions(specs, n) && n !in out
  {
    forall k | 0 <= k < |specs| ensures (c.shares[k].Ok? && n in c.shares[k].value) <==> MentionsAt(specs[k], n) && n !in out {
      ShareOfList(c, sys, specs, out, k);
      assert Parsed(specs[k]).Ok?;
    }
    if n !in out {
      if k :| 0 <= k < |specs| && MentionsAt(specs[k], n) {
        assert c.shares[k].Ok? && n in c.shares[k].value;
      }
    }
  }

  /** With node lists only: the call raises exactly when a list or an exclusion cannot be read or everything is
      excluded; otherwise it returns exactly the names mentioned and not excluded. */
  lemma ListsResolve(c: Call, sys: System, count: int, specs: seq<string>, exclude: seq<string>)
    requires IsCall(c, sys, specs, exclude) && specs != [] && AllLists(specs)
    ensures var r := NodesOf(count, specs, exclude, c);
            && (r.Raised? <==> !SpecsRead(exclude) || !SpecsRead(specs) || forall n :: Mentions(specs, n) ==> Mentions(exclude, n))
            && (r.Ok? ==> forall n :: n in r.value.1 <==> Mentions(specs, n) && !Mentions(exclude, n))
  {
    NodesBySpec(c, sys, count, specs, exclude);
    NodesBySpecRaises(c, sys, count, specs, exclude);
    ExcludedIsMentioned(exclude);
    if SpecsRead(exclude) {
      var out := Excluded(exclude).value;
      ListsRaise(c, sys, specs, out);
      if SpecsRead(specs) {
        forall n ensures Contributed(c.shares, n) <==> Mentions(specs, n) && !Mentions(exclude, n) {
          ListsContribute(c, sys, specs, out, n);
        }
      }
    }
  }
}
