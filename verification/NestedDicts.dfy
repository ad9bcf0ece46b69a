/** Nested dictionaries: what `deep_merge` keeps of its two arguments, path by path. */
module NestedDicts {
  import opened Basics

  /** A Python dict in insertion order, or any value that is not a dict. */
  datatype Tree<V> = Leaf(value: V) | Dict(items: seq<Item<V>>)
  datatype Item<V> = Item(key: string, tree: Tree<V>)

  /** Different keys, at every level. */
  predicate Proper<V>(items: seq<Item<V>>) {
    && (forall i, j | 0 <= i < j < |items| :: items[i].key != items[j].key)
    && forall i | 0 <= i < |items| :: items[i].tree.Dict? ==> Proper(items[i].tree.items)
  }

  function Get<V>(items: seq<Item<V>>, key: string): Option<Tree<V>> {
    if items == [] then None
    else if items[|items| - 1].key == key then Some(items[|items| - 1].tree)
    else Get(items[..|items| - 1], key)
  }

  function Replace<V>(items: seq<Item<V>>, key: string, tree: Tree<V>): seq<Item<V>>
    requires Get(items, key).Some?
  {
    if items[|items| - 1].key == key then items[..|items| - 1] + [Item(key, tree)]
    else Replace(items[..|items| - 1], key, tree) + [items[|items| - 1]]
  }

  /** `d[key] = tree`: in place when the key is there, at the end otherwise. */
  function Put<V>(items: seq<Item<V>>, key: string, tree: Tree<V>): seq<Item<V>> {
    if Get(items, key) == None then items + [Item(key, tree)] else Replace(items, key, tree)
  }

  /** What ends up under a key that `b` has. */
  function Combined<V>(was: Option<Tree<V>>, tree: Tree<V>): Tree<V>
    decreases tree
  {
    if was.Some? && was.value.Dict? && tree.Dict? then Dict(Merge(was.value.items, tree.items)) else tree
  }

  /** `deep_merge`. */
  function Merge<V>(a: seq<Item<V>>, b: seq<Item<V>>): seq<Item<V>>
    decreases b
  {
    if b == [] then a
    else
      var result, last := Merge(a, b[..|b| - 1]), b[|b| - 1];
      Put(result, last.key, Combined(Get(result, last.key), last.tree))
  }

  method DeepMerge<V(==)>(a: seq<Item<V>>, b: seq<Item<V>>) returns (result: seq<Item<V>>)
    ensures result == Merge(a, b)
    decreases b
  {
    result := a;
    for i := 0 to |b|
      invariant result == Merge(a, b[..i])
    {
      assert b[..i + 1][..i] == b[..i];
      var was, tree := Get(result, b[i].key), b[i].tree;
      if was.Some? && was.value.Dict? && tree.Dict? {
        var merged := DeepMerge(was.value.items, tree.items);
        result := Put(result, b[i].key, Dict(merged));
      } else {
        result := Put(result, b[i].key, tree);
      }
    }
    assert b[..|b|] == b;
  }

  // ----- Key by key -----

  function Keys<V>(items: seq<Item<V>>): (keys: seq<string>)
    ensures |keys| == |items|
  {
    seq(|items|, i requires 0 <= i < |items| => items[i].key)
  }

  lemma {:induction false} GetReplace<V>(items: seq<Item<V>>, key: string, tree: Tree<V>, x: string)
    requires Get(items, key).Some?
    ensures Get(Replace(items, key, tree), x) == if x == key then Some(tree) else Get(items, x)
    ensures Keys(Replace(items, key, tree)) == Keys(items)
    decreases |items|
  {
    var front, last := items[..|items| - 1], items[|items| - 1];
    var after := Replace(items, key, tree);
    assert Keys(items) == Keys(front) + [last.key];
    if last.key != key {
      GetReplace(front, key, tree, x);
      assert after[..|after| - 1] == Replace(front, key, tree);
    } else {
      assert after[..|after| - 1] == front;
    }
  }

  lemma GetPut<V>(items: seq<Item<V>>, key: string, tree: Tree<V>, x: string)
    ensures Get(Put(items, key, tree), x) == if x == key then Some(tree) else Get(items, x)
    ensures Keys(Put(items, key, tree)) == Keys(items) + if Get(items, key) == None then [key] else []
  {
    if Get(items, key) == None {
      assert (items + [Item(key, tree)])[..|items|] == items;
    } else {
      GetReplace(items, key, tree, x);
    }
  }

  /** Each key of `b` decides its own entry; the others keep theirs. */
  lemma {:induction false} GetMerge<V>(a: seq<Item<V>>, b: seq<Item<V>>, x: string)
    requires Proper(b)
    ensures Get(Merge(a, b), x) == if Get(b, x).Some? then Some(Combined(Get(a, x), Get(b, x).value)) else Get(a, x)
    decreases |b|
  {
    if b != [] {
      var front, last := b[..|b| - 1], b[|b| - 1];
      GetMerge(a, front, x);
      GetPut(Merge(a, front), last.key, Combined(Get(Merge(a, front), last.key), last.tree), x);
      if last.key == x {
        NotAgain(b);
      }
    }
  }

  /** The keys of `b` that `a` does not have. */
  function NewKeys<V>(a: seq<Item<V>>, b: seq<Item<V>>): seq<string> {
    if b == [] then []
    else NewKeys(a, b[..|b| - 1]) + if Get(a, b[|b| - 1].key) == None then [b[|b| - 1].key] else []
  }

  /** The keys of `a` stay where they are; the new ones follow in the order of `b`. */
  lemma {:induction false} MergeOrder<V>(a: seq<Item<V>>, b: seq<Item<V>>)
    requires Proper(b)
    ensures Keys(Merge(a, b)) == Keys(a) + NewKeys(a, b)
    decreases |b|
  {
    if b != [] {
      var front, last := b[..|b| - 1], b[|b| - 1];
      MergeOrder(a, front);
      GetMerge(a, front, last.key);
      NotAgain(b);
      GetPut(Merge(a, front), last.key, Combined(Get(Merge(a, front), last.key), last.tree), last.key);
    }
  }

  lemma NotAgain<V>(b: seq<Item<V>>)
    requires Proper(b) && b != []
    ensures Get(b[..|b| - 1], b[|b| - 1].key) == None
  {
    GetFinds(b[..|b| - 1], b[|b| - 1].key);
  }

  lemma {:induction false} GetFinds<V>(items: seq<Item<V>>, key: string)
    ensures Get(items, key).Some? ==> exists i | 0 <= i < |items| :: items[i] == Item(key, Get(items, key).value)
    ensures Get(items, key) == None ==> forall i | 0 <= i < |items| :: items[i].key != key
    decreases |items|
  {
    if items != [] && items[|items| - 1].key != key {
      var front := items[..|items| - 1];
      GetFinds(front, key);
      assert forall i | 0 <= i < |front| :: front[i] == items[i];
    }
  }

  lemma GetProper<V>(items: seq<Item<V>>, key: string)
    requires Proper(items) && Get(items, key).Some? && Get(items, key).value.Dict?
    ensures Proper(Get(items, key).value.items)
  {
    GetFinds(items, key);
    var i :| 0 <= i < |items| && items[i] == Item(key, Get(items, key).value);
    assert items[i].tree.Dict?;
  }

  // ----- Path by path -----

  /** What there is at a path: nothing, a dict, or some other value. */
  datatype Kind<V> = Absent | ADict | AValue(value: V)

  function At<V>(t: Tree<V>, path: seq<string>): Kind<V>
    decreases |path|
  {
    match t
    case Leaf(v) => if path == [] then AValue(v) else Absent
    case Dict(items) =>
      if path == [] then ADict
      else if Get(items, path[0]) == None then Absent
      else At(Get(items, path[0]).value, path[1..])
  }

  /** Some value that is not a dict lies on the way to the path. */
  predicate Blocks<V>(t: Tree<V>, path: seq<string>)
    decreases |path|
  {
    match t
    case Leaf(_) => path != []
    case Dict(items) => path != [] && Get(items, path[0]).Some? && Blocks(Get(items, path[0]).value, path[1..])
  }

  lemma {:induction false} BlockedIsAbsent<V>(t: Tree<V>, path: seq<string>)
    requires Blocks(t, path)
    ensures At(t, path) == Absent
    decreases |path|
  {
    if t.Dict? {
      BlockedIsAbsent(Get(t.items, path[0]).value, path[1..]);
    }
  }

  /** The merge of two kinds at one path: `b` wins wherever it has anything, at the path or on the way. */
  function Over<V>(a: Kind<V>, b: Kind<V>, blocked: bool): Kind<V> {
    if b != Absent then b else if blocked then Absent else a
  }

  /** The path law: every value and dict of `b` is there, those of `a` are there unless `b` has anything
      at their path or a value on the way, and nothing else is. */
  lemma {:induction false} MergeAtPath<V>(a: seq<Item<V>>, b: seq<Item<V>>, path: seq<string>)
    requires Proper(a) && Proper(b)
    ensures At(Dict(Merge(a, b)), path) == Over(At(Dict(a), path), At(Dict(b), path), Blocks(Dict(b), path))
    decreases |path|
  {
    if path != [] {
      var key, rest := path[0], path[1..];
      GetMerge(a, b, key);
      if Get(b, key).Some? && Get(b, key).value.Dict? {
        GetProper(b, key);
        if Get(a, key).Some? && Get(a, key).value.Dict? {
          GetProper(a, key);
          MergeAtPath(Get(a, key).value.items, Get(b, key).value.items, rest);
        } else {
          ReplacedAtPath(Get(a, key), Get(b, key).value, rest);
        }
      } else if Get(b, key).Some? {
        ReplacedAtPath(Get(a, key), Get(b, key).value, rest);
      }
    }
  }

  /** Where `a` has no dict, the tree of `b` comes out as it is. */
  lemma ReplacedAtPath<V>(was: Option<Tree<V>>, tree: Tree<V>, rest: seq<string>)
    requires was == None || was.value.Leaf? || tree.Leaf?
    ensures At(tree, rest) == Over(if was.Some? then At(was.value, rest) else Absent, At(tree, rest), Blocks(tree, rest))
  {
    if rest == [] {
      assert At(tree, rest) != Absent;
    }
  }

  // ----- Equality of dicts -----

  /** Python's `==`: the same keys with equal values, in any order. */
  predicate Same<V(==)>(a: Tree<V>, b: Tree<V>)
    decreases a
  {
    match a
    case Leaf(v) => b.Leaf? && v == b.value
    case Dict(items) =>
      && b.Dict?
      && (forall i | 0 <= i < |b.items| :: Get(items, b.items[i].key).Some?)
      && forall i | 0 <= i < |items| ::
           Get(b.items, items[i].key).Some? && Same(items[i].tree, Get(b.items, items[i].key).value)
  }

  predicate ProperTree<V>(t: Tree<V>) {
    t.Dict? ==> Proper(t.items)
  }

  lemma {:induction false} GetOf<V>(items: seq<Item<V>>, i: nat)
    requires Proper(items) && i < |items|
    ensures Get(items, items[i].key) == Some(items[i].tree) && ProperTree(items[i].tree)
    decreases |items|
  {
    if i < |items| - 1 {
      assert items[i].key != items[|items| - 1].key;
      GetOf(items[..|items| - 1], i);
    }
  }

  lemma {:induction false} SameAtPath<V>(a: Tree<V>, b: Tree<V>, path: seq<string>)
    requires ProperTree(a) && ProperTree(b) && Same(a, b)
    ensures At(a, path) == At(b, path)
    decreases |path|
  {
    if path != [] && a.Dict? {
      var key := path[0];
      GetFinds(a.items, key);
      GetFinds(b.items, key);
      if Get(a.items, key).Some? {
        var i :| 0 <= i < |a.items| && a.items[i] == Item(key, Get(a.items, key).value);
        GetOf(a.items, i);
        assert Get(b.items, a.items[i].key).Some?;
        var j :| 0 <= j < |b.items| && b.items[j] == Item(key, Get(b.items, key).value);
        GetOf(b.items, j);
        SameAtPath(a.items[i].tree, b.items[j].tree, path[1..]);
      }
    }
  }

  ghost predicate SamePaths<V(!new)>(a: Tree<V>, b: Tree<V>) {
    forall path: seq<string> :: At(a, path) == At(b, path)
  }

  lemma BelowKey<V(!new)>(a: Tree<V>, b: Tree<V>, key: string)
    requires a.Dict? && b.Dict? && SamePaths(a, b) && Get(a.items, key).Some?
    ensures Get(b.items, key).Some? && SamePaths(Get(a.items, key).value, Get(b.items, key).value)
  {
    assert [key][1..] == [];
    assert At(a, [key]) == At(b, [key]);
    assert At(Get(a.items, key).value, []) != Absent;
    forall rest: seq<string> ensures At(Get(a.items, key).value, rest) == At(Get(b.items, key).value, rest) {
      assert ([key] + rest)[1..] == rest;
      assert At(a, [key] + rest) == At(b, [key] + rest);
    }
  }

  lemma {:induction false} SamePathsSame<V(!new)>(a: Tree<V>, b: Tree<V>)
    requires ProperTree(a) && ProperTree(b) && SamePaths(a, b)
    ensures Same(a, b)
    decreases a
  {
    assert At(a, []) == At(b, []);
    if a.Dict? {
      forall i | 0 <= i < |b.items| ensures Get(a.items, b.items[i].key).Some? {
        GetOf(b.items, i);
        BelowKey(b, a, b.items[i].key);
      }
      forall i | 0 <= i < |a.items|
        ensures Get(b.items, a.items[i].key).Some? && Same(a.items[i].tree, Get(b.items, a.items[i].key).value)
      {
        GetOf(a.items, i);
        BelowKey(a, b, a.items[i].key);
        GetFinds(b.items, a.items[i].key);
        var j :| 0 <= j < |b.items| && b.items[j] == Item(a.items[i].key, Get(b.items, a.items[i].key).value);
        GetOf(b.items, j);
        SamePathsSame(a.items[i].tree, b.items[j].tree);
      }
    }
  }

  /** Two dicts are equal exactly when they have the same kind at every path. */
  lemma SameIffSamePaths<V(!new)>(a: Tree<V>, b: Tree<V>)
    requires ProperTree(a) && ProperTree(b)
    ensures Same(a, b) <==> SamePaths(a, b)
  {
    if Same(a, b) {
      forall path: seq<string> ensures At(a, path) == At(b, path) { SameAtPath(a, b, path); }
    }
    if SamePaths(a, b) {
      SamePathsSame(a, b);
    }
  }

  // ----- Laws of merging -----

  lemma {:induction false} ReplaceProper<V>(items: seq<Item<V>>, key: string, tree: Tree<V>)
    requires Proper(items) && ProperTree(tree) && Get(items, key).Some?
    ensures Proper(Replace(items, key, tree))
    decreases |items|
  {
    var front, last, after := items[..|items| - 1], items[|items| - 1], Replace(items, key, tree);
    GetReplace(items, key, tree, key);
    forall i, j | 0 <= i < j < |after| ensures after[i].key != after[j].key {
      assert Keys(after)[i] == Keys(items)[i] && Keys(after)[j] == Keys(items)[j];
    }
    if last.key != key {
      ReplaceProper(front, key, tree);
    }
  }

  lemma PutProper<V>(items: seq<Item<V>>, key: string, tree: Tree<V>)
    requires Proper(items) && ProperTree(tree)
    ensures Proper(Put(items, key, tree))
  {
    if Get(items, key).Some? {
      ReplaceProper(items, key, tree);
    } else {
      GetFinds(items, key);
    }
  }

  lemma {:induction false} MergeProper<V>(a: seq<Item<V>>, b: seq<Item<V>>)
    requires Proper(a) && Proper(b)
    ensures Proper(Merge(a, b))
    decreases b
  {
    if b != [] {
      var front, last := b[..|b| - 1], b[|b| - 1];
      MergeProper(a, front);
      var result := Merge(a, front);
      var was := Get(result, last.key);
      if was.Some? && was.value.Dict? && last.tree.Dict? {
        GetProper(result, last.key);
        MergeProper(was.value.items, last.tree.items);
      }
      PutProper(result, last.key, Combined(was, last.tree));
    }
  }

  /** Merging a dict with itself gives an equal dict. */
  lemma MergeSelf<V(!new)>(a: seq<Item<V>>)
    requires Proper(a)
    ensures Same(Dict(Merge(a, a)), Dict(a))
  {
    MergeProper(a, a);
    forall path: seq<string> ensures At(Dict(Merge(a, a)), path) == At(Dict(a), path) {
      MergeAtPath(a, a, path);
    }
    SameIffSamePaths(Dict(Merge(a, a)), Dict(a));
  }

  /** Merging the same dict in again changes nothing. */
  lemma MergeAgain<V(!new)>(a: seq<Item<V>>, b: seq<Item<V>>)
    requires Proper(a) && Proper(b)
    ensures Same(Dict(Merge(Merge(a, b), b)), Dict(Merge(a, b)))
  {
    MergeProper(a, b);
    MergeProper(Merge(a, b), b);
    forall path: seq<string> ensures At(Dict(Merge(Merge(a, b), b)), path) == At(Dict(Merge(a, b)), path) {
      MergeAtPath(a, b, path);
      MergeAtPath(Merge(a, b), b, path);
    }
    SameIffSamePaths(Dict(Merge(Merge(a, b), b)), Dict(Merge(a, b)));
  }

  /** `b` has a dict in the place of the value with which `a` blocks the path. */
  predicate Clears<V>(a: Tree<V>, b: Tree<V>, path: seq<string>)
    decreases |path|
  {
    match a
    case Leaf(_) => path != [] && b.Dict?
    case Dict(items) =>
      && path != [] && Get(items, path[0]).Some? && b.Dict? && Get(b.items, path[0]).Some?
      && Clears(Get(items, path[0]).value, Get(b.items, path[0]).value, path[1..])
  }

  lemma {:induction false} BlocksMerge<V>(a: seq<Item<V>>, b: seq<Item<V>>, path: seq<string>)
    requires Proper(a) && Proper(b)
    ensures Blocks(Dict(Merge(a, b)), path) <==>
            Blocks(Dict(b), path) || (Blocks(Dict(a), path) && !Clears(Dict(a), Dict(b), path))
    decreases |path|
  {
    if path != [] {
      var key, rest := path[0], path[1..];
      GetMerge(a, b, key);
      if Get(a, key).Some? && Get(b, key).Some? && Get(a, key).value.Dict? && Get(b, key).value.Dict? {
        GetProper(a, key);
        GetProper(b, key);
        BlocksMerge(Get(a, key).value.items, Get(b, key).value.items, rest);
      } else if Get(a, key).Some? && Get(b, key).Some? && Get(b, key).value.Leaf? {
        assert Blocks(Get(b, key).value, rest) <==> rest != [];
      }
    }
  }

  /** Something of `a` that `b` removes by a value on the way and `c` then replaces by a dict without it. */
  predicate Resurfaces<V>(a: Tree<V>, b: Tree<V>, c: Tree<V>, path: seq<string>) {
    At(a, path) != Absent && Blocks(b, path) && Clears(b, c, path) && At(c, path) == Absent && !Blocks(c, path)
  }

  /** Merging from the left and from the right agree exactly when nothing resurfaces. */
  lemma MergeAssociatesIff<V(!new)>(a: seq<Item<V>>, b: seq<Item<V>>, c: seq<Item<V>>)
    requires Proper(a) && Proper(b) && Proper(c)
    ensures Same(Dict(Merge(Merge(a, b), c)), Dict(Merge(a, Merge(b, c)))) <==>
            forall path: seq<string> :: !Resurfaces(Dict(a), Dict(b), Dict(c), path)
  {
    var left, right := Dict(Merge(Merge(a, b), c)), Dict(Merge(a, Merge(b, c)));
    MergeProper(a, b);
    MergeProper(b, c);
    MergeProper(Merge(a, b), c);
    MergeProper(a, Merge(b, c));
    SameIffSamePaths(left, right);
    forall path: seq<string> ensures At(left, path) == At(right, path) <==> !Resurfaces(Dict(a), Dict(b), Dict(c), path) {
      AssociatesAt(a, b, c, path);
    }
  }

  lemma AssociatesAt<V>(a: seq<Item<V>>, b: seq<Item<V>>, c: seq<Item<V>>, path: seq<string>)
    requires Proper(a) && Proper(b) && Proper(c)
    ensures At(Dict(Merge(Merge(a, b), c)), path) == At(Dict(Merge(a, Merge(b, c))), path) <==>
            !Resurfaces(Dict(a), Dict(b), Dict(c), path)
  {
    MergeProper(a, b);
    MergeProper(b, c);
    MergeAtPath(a, b, path);
    MergeAtPath(b, c, path);
    MergeAtPath(Merge(a, b), c, path);
    MergeAtPath(a, Merge(b, c), path);
    BlocksMerge(b, c, path);
    if Blocks(Dict(b), path) { BlockedIsAbsent(Dict(b), path); }
    if Blocks(Dict(c), path) { BlockedIsAbsent(Dict(c), path); }
  }

  /** No path is a dict in one and another value in the other. */
  ghost predicate Compatible<V(!new)>(a: Tree<V>, b: Tree<V>) {
    forall path: seq<string> :: !(At(a, path).AValue? && At(b, path).ADict?)
  }

  lemma {:induction false} CompatibleNeverClears<V(!new)>(a: Tree<V>, b: Tree<V>, path: seq<string>)
    requires Clears(a, b, path)
    ensures exists q: seq<string> :: At(a, q).AValue? && At(b, q).ADict?
    decreases |path|
  {
    if a.Leaf? {
      assert At(a, []).AValue? && At(b, []).ADict?;
    } else {
      var x, y := Get(a.items, path[0]).value, Get(b.items, path[0]).value;
      CompatibleNeverClears(x, y, path[1..]);
      var q: seq<string> :| At(x, q).AValue? && At(y, q).ADict?;
      assert ([path[0]] + q)[1..] == q;
      assert At(a, [path[0]] + q).AValue? && At(b, [path[0]] + q).ADict?;
    }
  }

  /** So merging is associative on dicts that agree on what is a dict. */
  lemma MergeAssociates<V(!new)>(a: seq<Item<V>>, b: seq<Item<V>>, c: seq<Item<V>>)
    requires Proper(a) && Proper(b) && Proper(c) && Compatible(Dict(b), Dict(c))
    ensures Same(Dict(Merge(Merge(a, b), c)), Dict(Merge(a, Merge(b, c))))
  {
    forall path: seq<string> ensures !Resurfaces(Dict(a), Dict(b), Dict(c), path) {
      if Clears(Dict(b), Dict(c), path) {
        CompatibleNeverClears(Dict(b), Dict(c), path);
      }
    }
    MergeAssociatesIff(a, b, c);
  }

  /** They need not agree: here the left merge has lost `x`, the right one has kept it. */
  lemma MergeNotAssociative()
    ensures var a, b, c := [Item("q", Dict([Item("x", Leaf(1))]))], [Item("q", Leaf(2))], [Item("q", Dict([]))];
            !Same(Dict(Merge(Merge(a, b), c)), Dict(Merge(a, Merge(b, c))))
  {
    var a, b, c := [Item("q", Dict([Item("x", Leaf(1))]))], [Item("q", Leaf(2))], [Item("q", Dict([]))];
    assert Proper([Item("x", Leaf(1))]);
    assert ["q", "x"][1..] == ["x"];
    assert Get([Item("x", Leaf(1))], "x") == Some(Leaf(1));
    assert At(Dict([Item("x", Leaf(1))]), ["x"]) == AValue(1);
    assert Resurfaces(Dict(a), Dict(b), Dict(c), ["q", "x"]);
    MergeAssociatesIff(a, b, c);
  }
}
