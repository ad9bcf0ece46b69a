/** When a test run is a design-space job, and which parameters it then explores: the first is asked of the
    nested arguments, the second of the flattened ones. */
module ParamSpaces {
  import opened Basics
  import opened Strings
  import opened Grid
  import opened NestedDicts
  import opened FlatDicts
  import ActionValues

  type Value = ActionValues.Value

  /** Command arguments or environment variables. */
  type Args = seq<Item<Value>>

  predicate IsList(t: Tree<Value>) {
    t.Leaf? && t.value.List?
  }

  /** `check_dict`. */
  predicate HasList(items: Args) {
    exists i | 0 <= i < |items| :: IsList(items[i].tree) || (items[i].tree.Dict? && HasList(items[i].tree.items))
  }

  /** `is_dse_job`; `nodes` is `num_nodes` when that is a list. */
  predicate IsDseJob(args: Args, vars: Args, nodes: Option<seq<Value>>) {
    HasList(args) || HasList(vars) || nodes.Some?
  }

  /** The list-valued entries under prefixed keys. */
  function Explorable(flat: Args, prefix: string): Args {
    if flat == [] then []
    else
      var last := flat[|flat| - 1];
      Explorable(flat[..|flat| - 1], prefix) + if IsList(last.tree) then [Item(prefix + last.key, last.tree)] else []
  }

  const Env := "extra_env_vars."

  /** The two comprehensions in one dict. */
  function Listed(args: Args, vars: Args): Args {
    Collect(Explorable(Flatten(args, [], "."), []) + Explorable(vars, Env))
  }

  /** The dict that `param_space` returns. */
  function Entries(args: Args, vars: Args, nodes: Option<seq<Value>>): Args {
    if nodes.Some? then Put(Listed(args, vars), "NUM_NODES", Leaf(ActionValues.List(nodes.value))) else Listed(args, vars)
  }

  function ParamOf(item: Item<Value>): Param {
    Param(item.key, if IsList(item.tree) then item.tree.value.items else [])
  }

  function ParamSpace(args: Args, vars: Args, nodes: Option<seq<Value>>): (space: seq<Param>)
    ensures |space| == |Entries(args, vars, nodes)|
  {
    var entries := Entries(args, vars, nodes);
    seq(|entries|, i requires 0 <= i < |entries| => ParamOf(entries[i]))
  }

  /** The keys of a parameter space differ. */
  lemma SpaceKeysDiffer(args: Args, vars: Args, nodes: Option<seq<Value>>)
    ensures Grid.DifferentKeys(ParamSpace(args, vars, nodes))
  {
    CollectDiffers(Explorable(Flatten(args, [], "."), []) + Explorable(vars, Env));
    if nodes.Some? {
      PutDiffers(Listed(args, vars), "NUM_NODES", Leaf(ActionValues.List(nodes.value)));
    }
  }

  // ----- Lists among the leaves -----

  predicate SomeList(leaves: Args) {
    exists i | 0 <= i < |leaves| :: IsList(leaves[i].tree)
  }

  lemma SomeListConcat(a: Args, b: Args)
    ensures SomeList(a + b) <==> SomeList(a) || SomeList(b)
  {
    var both := a + b;
    if i :| 0 <= i < |a| && IsList(a[i].tree) { assert IsList(both[i].tree); }
    if i :| 0 <= i < |b| && IsList(b[i].tree) { assert IsList(both[|a| + i].tree); }
  }

  lemma HasListSnoc(items: Args)
    requires items != []
    ensures var last := items[|items| - 1].tree;
            HasList(items) <==> HasList(items[..|items| - 1]) || IsList(last) || (last.Dict? && HasList(last.items))
  {
    var front := items[..|items| - 1];
    if HasList(front) {
      var i :| 0 <= i < |front| && (IsList(front[i].tree) || (front[i].tree.Dict? && HasList(front[i].tree.items)));
      assert items[i] == front[i];
    }
  }

  /** The recursive search finds a list exactly when some leaf is one. */
  lemma {:induction false} HasListIffLeaf(items: Args, parent: string, sep: string)
    ensures HasList(items) <==> SomeList(Leaves(items, parent, sep))
    decreases items
  {
    if items != [] {
      var front, last := items[..|items| - 1], items[|items| - 1];
      HasListSnoc(items);
      HasListIffLeaf(front, parent, sep);
      SomeListConcat(Leaves(front, parent, sep), LeavesOf(last, parent, sep));
      if last.tree.Dict? {
        HasListIffLeaf(last.tree.items, NewKey(parent, last.key, sep), sep);
      } else {
        assert LeavesOf(last, parent, sep)[0].tree == last.tree;
      }
    }
  }

  lemma {:induction false} ExplorableIffList(flat: Args, prefix: string)
    ensures Explorable(flat, prefix) != [] <==> SomeList(flat)
    decreases |flat|
  {
    if flat != [] {
      var front, last := flat[..|flat| - 1], flat[|flat| - 1];
      ExplorableIffList(front, prefix);
      assert flat == front + [last];
      SomeListConcat(front, [last]);
    }
  }

  lemma CollectEmpty(pairs: Args)
    ensures Collect(pairs) == [] <==> pairs == []
  {
    if pairs != [] {
      var last := pairs[|pairs| - 1];
      GetPut(Collect(pairs[..|pairs| - 1]), last.key, last.tree, last.key);
    }
  }

  /** Nothing is left to explore exactly when no list survives. */
  lemma SpaceEmptyIff(args: Args, vars: Args, nodes: Option<seq<Value>>)
    ensures ParamSpace(args, vars, nodes) == [] <==> nodes == None && !SomeList(vars) && !SomeList(Flatten(args, [], "."))
  {
    var a, b := Explorable(Flatten(args, [], "."), []), Explorable(vars, Env);
    ExplorableIffList(Flatten(args, [], "."), []);
    ExplorableIffList(vars, Env);
    CollectEmpty(a + b);
    if nodes.Some? {
      GetPut(Listed(args, vars), "NUM_NODES", Leaf(ActionValues.List(nodes.value)), "NUM_NODES");
    }
  }

  // ----- Which list survives -----

  /** The last entry with a key. */
  lemma {:induction false} GetLast(pairs: Args, x: string) returns (l: nat)
    requires Get(pairs, x).Some?
    ensures l < |pairs| && pairs[l] == Item(x, Get(pairs, x).value) && forall j | l < j < |pairs| :: pairs[j].key != x
    decreases |pairs|
  {
    l := |pairs| - 1;
    if pairs[l].key != x {
      l := GetLast(pairs[..l], x);
    }
  }

  lemma {:induction false} GetAny(pairs: Args, i: nat)
    requires i < |pairs|
    ensures Get(pairs, pairs[i].key).Some?
    decreases |pairs|
  {
    if pairs[|pairs| - 1].key != pairs[i].key {
      GetAny(pairs[..|pairs| - 1], i);
    }
  }

  /** A later leaf, which is no list, has the same joined key. */
  predicate Overwritten(leaves: Args, i: nat)
    requires i < |leaves|
  {
    exists j | i < j < |leaves| :: leaves[j].key == leaves[i].key && !IsList(leaves[j].tree)
  }

  predicate AllOverwritten(leaves: Args) {
    forall i | 0 <= i < |leaves| && IsList(leaves[i].tree) :: Overwritten(leaves, i)
  }

  lemma SurvivorWasLast(flat: Args, leaves: Args)
    requires FlatDicts.DifferentKeys(flat) && SomeList(flat) && forall x: string :: Get(flat, x) == Get(leaves, x)
    ensures !AllOverwritten(leaves)
  {
    var i :| 0 <= i < |flat| && IsList(flat[i].tree);
    var x := flat[i].key;
    GetAny(flat, i);
    var k := GetLast(flat, x);
    assert flat[k] == flat[i];
    var l := GetLast(leaves, x);
    assert IsList(leaves[l].tree) && !Overwritten(leaves, l);
  }

  lemma LastSurvives(flat: Args, leaves: Args)
    requires !AllOverwritten(leaves) && forall x: string :: Get(flat, x) == Get(leaves, x)
    ensures SomeList(flat)
  {
    var i :| 0 <= i < |leaves| && IsList(leaves[i].tree) && !Overwritten(leaves, i);
    var x := leaves[i].key;
    GetAny(leaves, i);
    var l := GetLast(leaves, x);
    assert l > i ==> IsList(leaves[l].tree);
    var k := GetLast(flat, x);
    assert IsList(flat[k].tree);
  }

  lemma SurvivorIsLast(items: Args)
    ensures SomeList(Flatten(items, [], ".")) <==> !AllOverwritten(Leaves(items, [], "."))
  {
    var flat, leaves := Flatten(items, [], "."), Leaves(items, [], ".");
    CollectDiffers(Pairs(items, [], "."));
    forall x: string ensures Get(flat, x) == Get(leaves, x) {
      GetLeaves(items, [], ".", x);
    }
    if SomeList(flat) { SurvivorWasLast(flat, leaves); }
    if !AllOverwritten(leaves) { LastSurvives(flat, leaves); }
  }

  /** Every list among the arguments is hidden. */
  predicate Hidden(args: Args, vars: Args, nodes: Option<seq<Value>>) {
    nodes == None && !SomeList(vars) && AllOverwritten(Leaves(args, [], "."))
  }

  predicate Flat(vars: Args) {
    forall i | 0 <= i < |vars| :: vars[i].tree.Leaf?
  }

  lemma FlatHasList(vars: Args)
    requires Flat(vars)
    ensures HasList(vars) <==> SomeList(vars)
  {
  }

  /** A job counts as design-space exploration and has nothing to explore exactly when it has lists and each
      of them comes before a leaf with the same joined key that is no list; and whatever has something
      to explore counts. */
  lemma NothingToExploreIff(args: Args, vars: Args, nodes: Option<seq<Value>>)
    requires Flat(vars)
    ensures IsDseJob(args, vars, nodes) && ParamSpace(args, vars, nodes) == [] <==> HasList(args) && Hidden(args, vars, nodes)
    ensures ParamSpace(args, vars, nodes) != [] ==> IsDseJob(args, vars, nodes)
  {
    FlatHasList(vars);
    SpaceEmptyIff(args, vars, nodes);
    SurvivorIsLast(args);
    HasListIffLeaf(args, [], ".");
  }

  lemma {:induction false} ListPath(items: Args) returns (path: seq<string>)
    requires Proper(items) && HasList(items)
    ensures path != [] && At(Dict(items), path).AValue? && At(Dict(items), path).value.List?
    decreases items
  {
    var i :| 0 <= i < |items| && (IsList(items[i].tree) || (items[i].tree.Dict? && HasList(items[i].tree.items)));
    GetOf(items, i);
    if items[i].tree.Dict? {
      var rest := ListPath(items[i].tree.items);
      path := [items[i].key] + rest;
      assert path[1..] == rest;
    } else {
      path := [items[i].key];
      assert path[1..] == [];
    }
  }

  /** With plain keys nothing is hidden: a job explores something exactly when it counts as exploration. */
  lemma PlainKeysHideNothing(args: Args, vars: Args, nodes: Option<seq<Value>>)
    requires Proper(args) && Plain(args, '.') && Flat(vars)
    ensures IsDseJob(args, vars, nodes) <==> ParamSpace(args, vars, nodes) != []
  {
    NothingToExploreIff(args, vars, nodes);
    SpaceEmptyIff(args, vars, nodes);
    if HasList(args) {
      var path := ListPath(args);
      var v := At(Dict(args), path).value;
      PathIsPlain(Dict(args), path, '.');
      FlattenAtPath(args, '.', path, v);
      GetFinds(Flatten(args, [], "."), FullKey([], path, "."));
    }
  }

  // ----- What each parameter is -----

  function ListOf(values: seq<Value>): Tree<Value> {
    Leaf(ActionValues.List(values))
  }

  lemma {:induction false} GetExplorable(flat: Args, prefix: string, x: string)
    requires FlatDicts.DifferentKeys(flat)
    ensures Get(Explorable(flat, prefix), x)
         == if prefix <= x && Get(flat, x[|prefix|..]).Some? && IsList(Get(flat, x[|prefix|..]).value)
            then Get(flat, x[|prefix|..]) else None
    decreases |flat|
  {
    if flat != [] {
      var front, last := flat[..|flat| - 1], flat[|flat| - 1];
      var pair := Item(prefix + last.key, last.tree);
      GetExplorable(front, prefix, x);
      GetConcat(Explorable(front, prefix), [pair], x);
      assert [pair][..0] == [];
      assert Explorable(front, prefix) + [] == Explorable(front, prefix);
      if prefix <= x && x[|prefix|..] == last.key {
        assert x == prefix + last.key;
        if Get(front, last.key).Some? {
          GetFinds(front, last.key);
        }
      }
    }
  }

  /** What a dict of lists gives for a key. */
  lemma GetParam(entries: Args, space: seq<Param>, key: string, values: seq<Value>)
    requires FlatDicts.DifferentKeys(entries) && (forall i | 0 <= i < |entries| :: IsList(entries[i].tree))
    requires |space| == |entries| && forall i | 0 <= i < |space| :: space[i] == ParamOf(entries[i])
    ensures Param(key, values) in space <==> Get(entries, key) == Some(ListOf(values))
  {
    if Param(key, values) in space {
      var i :| 0 <= i < |space| && space[i] == Param(key, values);
      GetAny(entries, i);
      var l := GetLast(entries, key);
      assert l == i;
    }
    if Get(entries, key) == Some(ListOf(values)) {
      var l := GetLast(entries, key);
      assert space[l] == Param(key, values);
    }
  }

  lemma {:induction false} ExplorableLists(flat: Args, prefix: string)
    ensures forall i | 0 <= i < |Explorable(flat, prefix)| :: IsList(Explorable(flat, prefix)[i].tree)
    decreases |flat|
  {
    if flat != [] {
      ExplorableLists(flat[..|flat| - 1], prefix);
    }
  }

  lemma EntriesAreLists(args: Args, vars: Args, nodes: Option<seq<Value>>)
    ensures FlatDicts.DifferentKeys(Entries(args, vars, nodes))
    ensures forall i | 0 <= i < |Entries(args, vars, nodes)| :: IsList(Entries(args, vars, nodes)[i].tree)
  {
    var entries := Entries(args, vars, nodes);
    var pairs := Explorable(Flatten(args, [], "."), []) + Explorable(vars, Env);
    CollectDiffers(pairs);
    ExplorableLists(Flatten(args, [], "."), []);
    ExplorableLists(vars, Env);
    if nodes.Some? {
      PutDiffers(Listed(args, vars), "NUM_NODES", ListOf(nodes.value));
    }
    forall i | 0 <= i < |entries| ensures IsList(entries[i].tree) {
      var x := entries[i].key;
      GetAny(entries, i);
      var k := GetLast(entries, x);
      assert k == i;
      GetCollect(pairs, x);
      if nodes.Some? {
        GetPut(Listed(args, vars), "NUM_NODES", ListOf(nodes.value), x);
      }
      if !(nodes.Some? && x == "NUM_NODES") {
        var l := GetLast(pairs, x);
      }
    }
  }

  /** The list under a key of the environment variables. */
  predicate EnvList(vars: Args, key: string, values: seq<Value>) {
    Env <= key && Get(vars, key[|Env|..]) == Some(ListOf(values))
  }

  ghost predicate SomeEnvList(vars: Args, key: string) {
    exists values: seq<Value> :: EnvList(vars, key, values)
  }

  /** The parameters of a test run: the node counts under their key, the lists of the environment under the
      prefixed names, and each list among the leaves of the arguments that no later leaf with its joined
      key overwrites, each unless one of the former has the key. */
  lemma ParametersAre(args: Args, vars: Args, nodes: Option<seq<Value>>, key: string, values: seq<Value>)
    requires FlatDicts.DifferentKeys(vars)
    ensures Param(key, values) in ParamSpace(args, vars, nodes) <==>
              if nodes.Some? && key == "NUM_NODES" then values == nodes.value
              else (EnvList(vars, key, values)
                    || (!SomeEnvList(vars, key) && Get(Leaves(args, [], "."), key) == Some(ListOf(values))))
  {
    var flat := Flatten(args, [], ".");
    var a, b := Explorable(flat, []), Explorable(vars, Env);
    EntriesAreLists(args, vars, nodes);
    GetParam(Entries(args, vars, nodes), ParamSpace(args, vars, nodes), key, values);
    if nodes.Some? {
      GetPut(Listed(args, vars), "NUM_NODES", ListOf(nodes.value), key);
    }
    if !(nodes.Some? && key == "NUM_NODES") {
      GetCollect(a + b, key);
      GetConcat(a, b, key);
      CollectDiffers(Pairs(args, [], "."));
      GetExplorable(flat, [], key);
      GetExplorable(vars, Env, key);
      GetLeaves(args, [], ".", key);
      assert key[0..] == key;
      if Get(b, key).Some? {
        assert EnvList(vars, key, Get(b, key).value.value.items);
      }
    }
  }

  /** With plain keys: each list at its path, under the joined key. */
  lemma ListAtPath(args: Args, vars: Args, nodes: Option<seq<Value>>, path: seq<string>, values: seq<Value>)
    requires Proper(args) && Plain(args, '.') && FlatDicts.DifferentKeys(vars)
    requires path != [] && PlainPath(path, '.') && !(Env <= Join(path, ".")) && Join(path, ".") != "NUM_NODES"
    ensures Param(Join(path, "."), values) in ParamSpace(args, vars, nodes)
       <==> At(Dict(args), path) == AValue(ActionValues.List(values))
  {
    var key := Join(path, ".");
    FullKeyJoins([], path, '.');
    FlattenAtPath(args, '.', path, ActionValues.List(values));
    GetLeaves(args, [], ".", key);
    ParametersAre(args, vars, nodes, key, values);
  }

  // ----- In which order -----

  predicate Before(space: seq<Param>, x: string, y: string) {
    exists k, l | 0 <= k < l < |space| :: space[k].key == x && space[l].key == y
  }

  /** The place of a list is the number of lists before it. */
  lemma {:induction false} ExplorableAt(flat: Args, prefix: string, i: nat)
    requires i < |flat| && IsList(flat[i].tree)
    ensures |Explorable(flat[..i], prefix)| < |Explorable(flat, prefix)|
    ensures Explorable(flat, prefix)[|Explorable(flat[..i], prefix)|] == Item(prefix + flat[i].key, flat[i].tree)
    decreases |flat|
  {
    var front := flat[..|flat| - 1];
    if i < |front| {
      ExplorableAt(front, prefix, i);
      assert front[..i] == flat[..i];
    }
  }

  lemma ExplorableInOrder(flat: Args, prefix: string, i: nat, j: nat)
    requires i < j < |flat| && IsList(flat[i].tree) && IsList(flat[j].tree)
    ensures var all := Explorable(flat, prefix);
            exists k, l | 0 <= k < l < |all| :: all[k].key == prefix + flat[i].key && all[l].key == prefix + flat[j].key
  {
    ExplorableAt(flat, prefix, i);
    ExplorableAt(flat, prefix, j);
    ExplorableAt(flat[..j], prefix, i);
    assert flat[..j][..i] == flat[..i];
  }

  lemma {:induction false} ExplorableDiffers(flat: Args, prefix: string)
    requires FlatDicts.DifferentKeys(flat)
    ensures FlatDicts.DifferentKeys(Explorable(flat, prefix))
    decreases |flat|
  {
    if flat != [] {
      var front, last := flat[..|flat| - 1], flat[|flat| - 1];
      var all := Explorable(front, prefix);
      ExplorableDiffers(front, prefix);
      forall k | 0 <= k < |all| ensures all[k].key != prefix + last.key {
        KeyOfExplorable(front, prefix, k);
        GetFinds(front, all[k].key[|prefix|..]);
      }
    }
  }

  lemma KeyOfExplorable(flat: Args, prefix: string, k: nat)
    requires FlatDicts.DifferentKeys(flat) && k < |Explorable(flat, prefix)|
    ensures var key := Explorable(flat, prefix)[k].key; prefix <= key && Get(flat, key[|prefix|..]).Some?
  {
    GetAny(Explorable(flat, prefix), k);
    GetExplorable(flat, prefix, Explorable(flat, prefix)[k].key);
  }

  /** No two entries of the parameter space get the same key. */
  predicate NoClash(args: Args, vars: Args) {
    var leaves := Leaves(args, [], ".");
    && FlatDicts.DifferentKeys(leaves) && FlatDicts.DifferentKeys(vars)
    && forall i | 0 <= i < |leaves| :: !(Env <= leaves[i].key) && leaves[i].key != "NUM_NODES"
  }

  lemma ArgKey(args: Args, vars: Args, k: nat)
    requires NoClash(args, vars) && k < |Explorable(Leaves(args, [], "."), [])|
    ensures var key := Explorable(Leaves(args, [], "."), [])[k].key; !(Env <= key) && key != "NUM_NODES"
  {
    var leaves := Leaves(args, [], ".");
    var key := Explorable(leaves, [])[k].key;
    KeyOfExplorable(leaves, [], k);
    assert key[0..] == key;
    GetFinds(leaves, key);
  }

  lemma NoneShared(args: Args, vars: Args)
    requires NoClash(args, vars)
    ensures FlatDicts.DifferentKeys(Explorable(Leaves(args, [], "."), []) + Explorable(vars, Env))
  {
    var a, b := Explorable(Leaves(args, [], "."), []), Explorable(vars, Env);
    ExplorableDiffers(Leaves(args, [], "."), []);
    ExplorableDiffers(vars, Env);
    forall k, l | 0 <= k < |a| && 0 <= l < |b| ensures a[k].key != b[l].key {
      ArgKey(args, vars, k);
      KeyOfExplorable(vars, Env, l);
    }
  }

  lemma ListedWhole(args: Args, vars: Args)
    requires NoClash(args, vars)
    ensures Listed(args, vars) == Explorable(Leaves(args, [], "."), []) + Explorable(vars, Env)
  {
    FlattenKeepsAllIff(args, [], ".");
    NoneShared(args, vars);
    CollectKeeps(Explorable(Leaves(args, [], "."), []) + Explorable(vars, Env));
  }

  lemma NodesAreNew(args: Args, vars: Args)
    requires NoClash(args, vars)
    ensures Get(Listed(args, vars), "NUM_NODES") == None
  {
    var a, b := Explorable(Leaves(args, [], "."), []), Explorable(vars, Env);
    ListedWhole(args, vars);
    GetConcat(a, b, "NUM_NODES");
    GetFinds(a, "NUM_NODES");
    forall k | 0 <= k < |a| ensures a[k].key != "NUM_NODES" { ArgKey(args, vars, k); }
    GetExplorable(vars, Env, "NUM_NODES");
    assert Env[0] == 'e' && "NUM_NODES"[0] == 'N';
  }

  /** Arguments, environment and node counts, one after the other. */
  lemma SpaceIs(args: Args, vars: Args, nodes: Option<seq<Value>>)
    requires NoClash(args, vars)
    ensures var all := Explorable(Leaves(args, [], "."), []) + Explorable(vars, Env);
            var space := ParamSpace(args, vars, nodes);
            && |space| == |all| + (if nodes.Some? then 1 else 0)
            && (forall k | 0 <= k < |all| :: space[k].key == all[k].key)
            && (nodes.Some? ==> space[|space| - 1] == Param("NUM_NODES", nodes.value))
  {
    ListedWhole(args, vars);
    NodesAreNew(args, vars);
    assert nodes.Some? ==> Entries(args, vars, nodes) == Listed(args, vars) + [Item("NUM_NODES", ListOf(nodes.value))];
  }

  lemma ArgsInOrder(args: Args, vars: Args, nodes: Option<seq<Value>>, i: nat, j: nat)
    requires NoClash(args, vars)
    requires var leaves := Leaves(args, [], "."); i < j < |leaves| && IsList(leaves[i].tree) && IsList(leaves[j].tree)
    ensures var leaves := Leaves(args, [], ".");
            Before(ParamSpace(args, vars, nodes), leaves[i].key, leaves[j].key)
  {
    var leaves := Leaves(args, [], ".");
    var a := Explorable(leaves, []);
    SpaceIs(args, vars, nodes);
    ExplorableInOrder(leaves, [], i, j);
    var k, l :| 0 <= k < l < |a| && a[k].key == [] + leaves[i].key && a[l].key == [] + leaves[j].key;
    assert (a + Explorable(vars, Env))[k] == a[k] && (a + Explorable(vars, Env))[l] == a[l];
  }

  lemma EnvInOrder(args: Args, vars: Args, nodes: Option<seq<Value>>, i: nat, j: nat)
    requires NoClash(args, vars) && i < j < |vars| && IsList(vars[i].tree) && IsList(vars[j].tree)
    ensures Before(ParamSpace(args, vars, nodes), Env + vars[i].key, Env + vars[j].key)
  {
    var a, b := Explorable(Leaves(args, [], "."), []), Explorable(vars, Env);
    SpaceIs(args, vars, nodes);
    ExplorableInOrder(vars, Env, i, j);
    var k, l :| 0 <= k < l < |b| && b[k].key == Env + vars[i].key && b[l].key == Env + vars[j].key;
    KeysAt(a, b, ParamSpace(args, vars, nodes), k, l);
  }

  lemma KeysAt(a: Args, b: Args, space: seq<Param>, k: nat, l: nat)
    requires k < l < |b| && |space| >= |a + b| && forall m | 0 <= m < |a + b| :: space[m].key == (a + b)[m].key
    ensures Before(space, b[k].key, b[l].key)
  {
    assert space[|a| + k].key == (a + b)[|a| + k].key && space[|a| + l].key == (a + b)[|a| + l].key;
  }

  lemma ArgsBeforeEnv(args: Args, vars: Args, nodes: Option<seq<Value>>, i: nat, j: nat)
    requires NoClash(args, vars) && j < |vars| && IsList(vars[j].tree)
    requires var leaves := Leaves(args, [], "."); i < |leaves| && IsList(leaves[i].tree)
    ensures Before(ParamSpace(args, vars, nodes), Leaves(args, [], ".")[i].key, Env + vars[j].key)
  {
    var leaves := Leaves(args, [], ".");
    var a, b := Explorable(leaves, []), Explorable(vars, Env);
    SpaceIs(args, vars, nodes);
    ExplorableAt(leaves, [], i);
    ExplorableAt(vars, Env, j);
    assert [] + leaves[i].key == leaves[i].key;
    var k, l := |Explorable(leaves[..i], [])|, |a| + |Explorable(vars[..j], Env)|;
    assert (a + b)[k] == a[k] && (a + b)[l] == b[l - |a|];
  }

  /** The order that numbers the combinations: the lists of the arguments as they stand, then those of the
      environment, then the node counts. */
  lemma SpaceInOrder(args: Args, vars: Args, nodes: Option<seq<Value>>, i: nat, j: nat)
    requires NoClash(args, vars)
    ensures var leaves, space := Leaves(args, [], "."), ParamSpace(args, vars, nodes);
            && (i < j < |leaves| && IsList(leaves[i].tree) && IsList(leaves[j].tree) ==>
                  Before(space, leaves[i].key, leaves[j].key))
            && (i < j < |vars| && IsList(vars[i].tree) && IsList(vars[j].tree) ==>
                  Before(space, Env + vars[i].key, Env + vars[j].key))
            && (i < |leaves| && j < |vars| && IsList(leaves[i].tree) && IsList(vars[j].tree) ==>
                  Before(space, leaves[i].key, Env + vars[j].key))
            && (nodes.Some? ==> space != [] && space[|space| - 1] == Param("NUM_NODES", nodes.value))
  {
    var leaves := Leaves(args, [], ".");
    SpaceIs(args, vars, nodes);
    if i < j < |leaves| && IsList(leaves[i].tree) && IsList(leaves[j].tree) { ArgsInOrder(args, vars, nodes, i, j); }
    if i < j < |vars| && IsList(vars[i].tree) && IsList(vars[j].tree) { EnvInOrder(args, vars, nodes, i, j); }
    if i < |leaves| && j < |vars| && IsList(leaves[i].tree) && IsList(vars[j].tree) { ArgsBeforeEnv(args, vars, nodes, i, j); }
  }
}
