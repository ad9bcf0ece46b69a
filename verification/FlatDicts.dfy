/** `flatten_dict`: a nested dict as one dict of joined keys, and when that loses nothing. */
module FlatDicts {
  import opened Basics
  import opened Strings
  import opened NestedDicts

  function NewKey(parent: string, key: string, sep: string): string {
    if parent == [] then key else parent + sep + key
  }

  /** `dict(items)` of a list of pairs: a later pair overwrites an earlier one in its place. */
  function Collect<V>(pairs: seq<Item<V>>): seq<Item<V>> {
    if pairs == [] then []
    else Put(Collect(pairs[..|pairs| - 1]), pairs[|pairs| - 1].key, pairs[|pairs| - 1].tree)
  }

  /** The list that the loop fills. */
  function Pairs<V>(items: seq<Item<V>>, parent: string, sep: string): seq<Item<V>>
    decreases items, 0
  {
    if items == [] then []
    else
      var last := items[|items| - 1];
      Pairs(items[..|items| - 1], parent, sep) + PairsOf(last, parent, sep)
  }

  function PairsOf<V>(item: Item<V>, parent: string, sep: string): seq<Item<V>>
    decreases item, 2
  {
    var key := NewKey(parent, item.key, sep);
    if item.tree.Dict? then Flatten(item.tree.items, key, sep) else [Item(key, item.tree)]
  }

  function Flatten<V>(items: seq<Item<V>>, parent: string, sep: string): seq<Item<V>>
    decreases items, 1
  {
    Collect(Pairs(items, parent, sep))
  }

  method FlattenDict<V>(d: seq<Item<V>>, parentKey: string, sep: string) returns (r: seq<Item<V>>)
    ensures r == Flatten(d, parentKey, sep)
    decreases d
  {
    var items: seq<Item<V>> := [];
    for i := 0 to |d|
      invariant items == Pairs(d[..i], parentKey, sep)
    {
      assert d[..i + 1][..i] == d[..i];
      var key := NewKey(parentKey, d[i].key, sep);
      if d[i].tree.Dict? {
        var inner := FlattenDict(d[i].tree.items, key, sep);
        items := items + inner;
      } else {
        items := items + [Item(key, d[i].tree)];
      }
    }
    assert d[..|d|] == d;
    r := Collect(items);
  }

  // ----- Which keys come out -----

  /** The key that a path is joined to. */
  function FullKey(parent: string, path: seq<string>, sep: string): string
    decreases |path|
  {
    if path == [] then parent else FullKey(NewKey(parent, path[0], sep), path[1..], sep)
  }

  lemma {:induction false} GetCollect<V>(pairs: seq<Item<V>>, x: string)
    ensures Get(Collect(pairs), x) == Get(pairs, x)
    decreases |pairs|
  {
    if pairs != [] {
      var front, last := pairs[..|pairs| - 1], pairs[|pairs| - 1];
      GetCollect(front, x);
      GetPut(Collect(front), last.key, last.tree, x);
    }
  }

  lemma {:induction false} GetConcat<V>(a: seq<Item<V>>, b: seq<Item<V>>, x: string)
    ensures Get(a + b, x) == if Get(b, x).Some? then Get(b, x) else Get(a, x)
    decreases |b|
  {
    if b == [] {
      assert a + b == a;
    } else {
      assert (a + b)[..|a + b| - 1] == a + b[..|b| - 1];
      GetConcat(a, b[..|b| - 1], x);
    }
  }

  ghost predicate LeafUnder<V(!new)>(items: seq<Item<V>>, parent: string, sep: string, x: string, v: V) {
    exists path: seq<string> :: path != [] && x == FullKey(parent, path, sep) && At(Dict(items), path) == AValue(v)
  }

  /** A leaf of one entry is a leaf of the dict, below the entry's key. */
  lemma LeafOfLast<V(!new)>(items: seq<Item<V>>, parent: string, sep: string, x: string, v: V)
    requires items != [] && items[|items| - 1].tree.Dict?
    requires LeafUnder(items[|items| - 1].tree.items, NewKey(parent, items[|items| - 1].key, sep), sep, x, v)
    ensures LeafUnder(items, parent, sep, x, v)
  {
    var last := items[|items| - 1];
    var path: seq<string> :| path != [] && x == FullKey(NewKey(parent, last.key, sep), path, sep) && At(last.tree, path) == AValue(v);
    assert ([last.key] + path)[1..] == path;
    assert At(Dict(items), [last.key] + path) == AValue(v);
  }

  lemma LeafOfFront<V(!new)>(items: seq<Item<V>>, parent: string, sep: string, x: string, v: V)
    requires Proper(items) && items != [] && LeafUnder(items[..|items| - 1], parent, sep, x, v)
    ensures LeafUnder(items, parent, sep, x, v)
  {
    var front := items[..|items| - 1];
    var path: seq<string> :| path != [] && x == FullKey(parent, path, sep) && At(Dict(front), path) == AValue(v);
    NotAgain(items);
    assert At(Dict(items), path) == AValue(v);
  }

  /** Everything that comes out is a leaf, under the joined key of its path. */
  lemma {:induction false} FlattenedIsLeaf<V(!new)>(items: seq<Item<V>>, parent: string, sep: string, x: string)
    requires Proper(items) && Get(Flatten(items, parent, sep), x).Some?
    ensures var t := Get(Flatten(items, parent, sep), x).value; t.Leaf? && LeafUnder(items, parent, sep, x, t.value)
    decreases items
  {
    GetCollect(Pairs(items, parent, sep), x);
    if items != [] {
      var front, last := items[..|items| - 1], items[|items| - 1];
      var key := NewKey(parent, last.key, sep);
      GetConcat(Pairs(front, parent, sep), PairsOf(last, parent, sep), x);
      if Get(PairsOf(last, parent, sep), x).Some? {
        if last.tree.Dict? {
          FlattenedIsLeaf(last.tree.items, key, sep, x);
          LeafOfLast(items, parent, sep, x, Get(PairsOf(last, parent, sep), x).value.value);
        } else {
          var path := [last.key];
          assert path[1..] == [] && Get(items, path[0]) == Some(last.tree);
          assert FullKey(parent, path, sep) == key == x;
          assert At(Dict(items), path) == AValue(last.tree.value);
        }
      } else {
        GetCollect(Pairs(front, parent, sep), x);
        FlattenedIsLeaf(front, parent, sep, x);
        LeafOfFront(items, parent, sep, x, Get(Pairs(front, parent, sep), x).value.value);
      }
    }
  }

  /** Every leaf's joined key comes out. */
  lemma {:induction false} LeafIsFlattened<V>(items: seq<Item<V>>, parent: string, sep: string, path: seq<string>)
    requires path != [] && At(Dict(items), path).AValue?
    ensures Get(Flatten(items, parent, sep), FullKey(parent, path, sep)).Some?
    decreases items
  {
    var x := FullKey(parent, path, sep);
    var front, last := items[..|items| - 1], items[|items| - 1];
    GetCollect(Pairs(items, parent, sep), x);
    GetConcat(Pairs(front, parent, sep), PairsOf(last, parent, sep), x);
    if last.key == path[0] {
      if last.tree.Dict? {
        LeafIsFlattened(last.tree.items, NewKey(parent, last.key, sep), sep, path[1..]);
      } else {
        assert path[1..] == [];
      }
    } else {
      LeafIsFlattened(front, parent, sep, path);
      GetCollect(Pairs(front, parent, sep), x);
    }
  }

  // ----- Plain keys -----

  /** No empty key and no separator in a key, at every level. */
  predicate Plain<V>(items: seq<Item<V>>, c: char) {
    && (forall i | 0 <= i < |items| :: items[i].key != [] && c !in items[i].key)
    && forall i | 0 <= i < |items| :: items[i].tree.Dict? ==> Plain(items[i].tree.items, c)
  }

  predicate PlainPath(path: seq<string>, c: char) {
    forall i | 0 <= i < |path| :: path[i] != [] && c !in path[i]
  }

  lemma {:induction false} PathIsPlain<V>(t: Tree<V>, path: seq<string>, c: char)
    requires (t.Dict? ==> Plain(t.items, c)) && At(t, path) != Absent
    ensures PlainPath(path, c)
    decreases |path|
  {
    if path != [] {
      GetFinds(t.items, path[0]);
      var i :| 0 <= i < |t.items| && t.items[i] == Item(path[0], Get(t.items, path[0]).value);
      PathIsPlain(t.items[i].tree, path[1..], c);
      assert path == [path[0]] + path[1..];
    }
  }

  lemma {:induction false} FullKeyJoins(parent: string, path: seq<string>, c: char)
    requires PlainPath(path, c) && path != []
    ensures FullKey(parent, path, [c]) == if parent == [] then Join(path, [c]) else parent + [c] + Join(path, [c])
    decreases |path|
  {
    var key := NewKey(parent, path[0], [c]);
    if |path| > 1 {
      FullKeyJoins(key, path[1..], c);
      assert parent + [c] + path[0] + [c] + Join(path[1..], [c]) == parent + [c] + (path[0] + [c] + Join(path[1..], [c]));
    } else {
      assert path[1..] == [];
    }
  }

  lemma DifferentPathsDifferentKeys(p: seq<string>, q: seq<string>, c: char)
    requires PlainPath(p, c) && PlainPath(q, c) && p != [] && q != []
    requires FullKey([], p, [c]) == FullKey([], q, [c])
    ensures p == q
  {
    FullKeyJoins([], p, c);
    FullKeyJoins([], q, c);
    SplitJoin(p, c);
    SplitJoin(q, c);
  }

  /** With plain keys the flat dict maps the joined key of each leaf's path to the leaf. */
  lemma FlattenAtPath<V(!new)>(items: seq<Item<V>>, c: char, path: seq<string>, v: V)
    requires Proper(items) && Plain(items, c) && path != [] && PlainPath(path, c)
    ensures At(Dict(items), path) == AValue(v) <==> Get(Flatten(items, [], [c]), FullKey([], path, [c])) == Some(Leaf(v))
  {
    var x := FullKey([], path, [c]);
    if At(Dict(items), path).AValue? {
      LeafIsFlattened(items, [], [c], path);
    }
    if Get(Flatten(items, [], [c]), x).Some? {
      FlattenedIsLeaf(items, [], [c], x);
      var w := Get(Flatten(items, [], [c]), x).value.value;
      var q: seq<string> :| q != [] && x == FullKey([], q, [c]) && At(Dict(items), q) == AValue(w);
      PathIsPlain(Dict(items), q, c);
      DifferentPathsDifferentKeys(path, q, c);
    }
  }

  // ----- Nothing is lost -----

  /** No empty dict below the root. */
  predicate Inhabited<V>(items: seq<Item<V>>) {
    forall i | 0 <= i < |items| :: items[i].tree.Dict? ==> items[i].tree.items != [] && Inhabited(items[i].tree.items)
  }

  lemma {:induction false} SomeLeaf<V>(items: seq<Item<V>>) returns (path: seq<string>)
    requires Proper(items) && Inhabited(items) && items != []
    ensures path != [] && At(Dict(items), path).AValue?
    decreases items
  {
    GetOf(items, 0);
    if items[0].tree.Dict? {
      var rest := SomeLeaf(items[0].tree.items);
      path := [items[0].key] + rest;
      assert path[1..] == rest;
    } else {
      path := [items[0].key];
      assert path[1..] == [];
    }
  }

  /** Every dict on a path has a leaf further down. */
  lemma {:induction false} LeafBelow<V>(items: seq<Item<V>>, path: seq<string>) returns (rest: seq<string>)
    requires Proper(items) && Inhabited(items) && path != [] && At(Dict(items), path) == ADict
    ensures rest != [] && At(Dict(items), path + rest).AValue?
    decreases |path|
  {
    GetFinds(items, path[0]);
    var i :| 0 <= i < |items| && items[i] == Item(path[0], Get(items, path[0]).value);
    GetOf(items, i);
    var inner := items[i].tree.items;
    if |path| == 1 {
      rest := SomeLeaf(inner);
    } else {
      rest := LeafBelow(inner, path[1..]);
    }
    assert (path + rest)[1..] == path[1..] + rest;
    assert |path| == 1 ==> path[1..] + rest == rest;
  }

  lemma {:induction false} DictAbove<V>(t: Tree<V>, path: seq<string>, rest: seq<string>)
    requires rest != [] && At(t, path + rest) != Absent
    ensures At(t, path) == ADict
    decreases |path|
  {
    if path == [] {
      assert path + rest == rest;
    } else {
      assert (path + rest)[1..] == path[1..] + rest;
      DictAbove(Get(t.items, path[0]).value, path[1..], rest);
    }
  }

  ghost predicate SameLeaves<V(!new)>(a: Tree<V>, b: Tree<V>) {
    forall path: seq<string>, v: V :: path != [] ==> (At(a, path) == AValue(v) <==> At(b, path) == AValue(v))
  }

  lemma LeavesDecide<V(!new)>(a: seq<Item<V>>, b: seq<Item<V>>, path: seq<string>)
    requires Proper(a) && Proper(b) && Inhabited(a) && Inhabited(b) && SameLeaves(Dict(a), Dict(b))
    ensures At(Dict(a), path) == ADict ==> At(Dict(b), path) == ADict
  {
    if path != [] && At(Dict(a), path) == ADict {
      var rest := LeafBelow(a, path);
      assert path + rest != [];
      var v := At(Dict(a), path + rest).value;
      assert At(Dict(b), path + rest) == AValue(v);
      DictAbove(Dict(b), path, rest);
    }
  }

  lemma SameLeavesSamePaths<V(!new)>(a: seq<Item<V>>, b: seq<Item<V>>)
    requires Proper(a) && Proper(b) && Inhabited(a) && Inhabited(b) && SameLeaves(Dict(a), Dict(b))
    ensures SamePaths(Dict(a), Dict(b))
  {
    forall path: seq<string> ensures At(Dict(a), path) == At(Dict(b), path) {
      LeavesDecide(a, b, path);
      LeavesDecide(b, a, path);
      if path != [] && At(Dict(a), path).AValue? {
        assert At(Dict(b), path) == AValue(At(Dict(a), path).value);
      }
      if path != [] && At(Dict(b), path).AValue? {
        assert At(Dict(a), path) == AValue(At(Dict(b), path).value);
      }
    }
  }

  /** Equality of flat dicts, whatever their order. */
  ghost predicate SameEntries<V(!new)>(a: seq<Item<V>>, b: seq<Item<V>>) {
    forall x: string :: Get(a, x) == Get(b, x)
  }

  /** On dicts with plain keys and no empty dict inside, flattening loses nothing: the flat dicts are
      equal exactly when the nested ones are. */
  lemma FlattenLosesNothing<V(!new)>(a: seq<Item<V>>, b: seq<Item<V>>, c: char)
    requires Proper(a) && Proper(b) && Inhabited(a) && Inhabited(b) && Plain(a, c) && Plain(b, c)
    ensures SameEntries(Flatten(a, [], [c]), Flatten(b, [], [c])) <==> Same(Dict(a), Dict(b))
  {
    SameIffSamePaths(Dict(a), Dict(b));
    if SameEntries(Flatten(a, [], [c]), Flatten(b, [], [c])) {
      forall path: seq<string>, v: V | path != [] ensures At(Dict(a), path) == AValue(v) <==> At(Dict(b), path) == AValue(v) {
        SameFlatSameLeaf(a, b, c, path, v);
        SameFlatSameLeaf(b, a, c, path, v);
      }
      SameLeavesSamePaths(a, b);
    }
    if SamePaths(Dict(a), Dict(b)) {
      forall x: string ensures Get(Flatten(a, [], [c]), x) == Get(Flatten(b, [], [c]), x) {
        SamePathsSameFlat(a, b, c, x);
        SamePathsSameFlat(b, a, c, x);
      }
    }
  }

  lemma SameFlatSameLeaf<V(!new)>(a: seq<Item<V>>, b: seq<Item<V>>, c: char, path: seq<string>, v: V)
    requires Proper(a) && Proper(b) && Plain(a, c) && Plain(b, c) && path != []
    requires SameEntries(Flatten(a, [], [c]), Flatten(b, [], [c]))
    ensures At(Dict(a), path) == AValue(v) ==> At(Dict(b), path) == AValue(v)
  {
    if At(Dict(a), path) == AValue(v) {
      PathIsPlain(Dict(a), path, c);
      FlattenAtPath(a, c, path, v);
      FlattenAtPath(b, c, path, v);
    }
  }

  lemma SamePathsSameFlat<V(!new)>(a: seq<Item<V>>, b: seq<Item<V>>, c: char, x: string)
    requires Proper(a) && Proper(b) && Plain(a, c) && Plain(b, c) && SamePaths(Dict(a), Dict(b))
    ensures Get(Flatten(a, [], [c]), x).Some? ==> Get(Flatten(b, [], [c]), x) == Get(Flatten(a, [], [c]), x)
  {
    if Get(Flatten(a, [], [c]), x).Some? {
      FlattenedIsLeaf(a, [], [c], x);
      var v := Get(Flatten(a, [], [c]), x).value.value;
      var q: seq<string> :| q != [] && x == FullKey([], q, [c]) && At(Dict(a), q) == AValue(v);
      PathIsPlain(Dict(a), q, c);
      FlattenAtPath(b, c, q, v);
    }
  }

  // ----- When a leaf is overwritten -----

  /** All leaves in order, each under the joined key of its path. */
  function Leaves<V>(items: seq<Item<V>>, parent: string, sep: string): seq<Item<V>>
    decreases items, 0
  {
    if items == [] then []
    else
      var last := items[|items| - 1];
      Leaves(items[..|items| - 1], parent, sep) + LeavesOf(last, parent, sep)
  }

  function LeavesOf<V>(item: Item<V>, parent: string, sep: string): seq<Item<V>>
    decreases item, 1
  {
    var key := NewKey(parent, item.key, sep);
    if item.tree.Dict? then Leaves(item.tree.items, key, sep) else [Item(key, item.tree)]
  }

  lemma {:induction false} LeavesConcat<V>(a: seq<Item<V>>, b: seq<Item<V>>, parent: string, sep: string)
    ensures Leaves(a + b, parent, sep) == Leaves(a, parent, sep) + Leaves(b, parent, sep)
    decreases |b|
  {
    if b == [] {
      assert a + b == a;
    } else {
      LeavesConcat(a, b[..|b| - 1], parent, sep);
      assert (a + b)[..|a + b| - 1] == a + b[..|b| - 1];
    }
  }

  /** Where the leaves stand: those of an entry after those of the entries before it, those of an inner dict in
      its place. */
  lemma LeavesInOrder<V>(a: seq<Item<V>>, item: Item<V>, b: seq<Item<V>>, parent: string, sep: string)
    ensures var key := NewKey(parent, item.key, sep);
            Leaves(a + [item] + b, parent, sep)
              == Leaves(a, parent, sep)
               + (if item.tree.Leaf? then [Item(key, item.tree)] else Leaves(item.tree.items, key, sep))
               + Leaves(b, parent, sep)
  {
    LeavesConcat(a, [item], parent, sep);
    LeavesConcat(a + [item], b, parent, sep);
    LeavesOne(item, parent, sep);
  }

  lemma LeavesOne<V>(item: Item<V>, parent: string, sep: string)
    ensures Leaves([item], parent, sep) == LeavesOf(item, parent, sep)
  {
    assert [item][..0] == [];
  }

  /** Of the leaves with one key the last one comes out. */
  lemma {:induction false} GetLeaves<V>(items: seq<Item<V>>, parent: string, sep: string, x: string)
    ensures Get(Flatten(items, parent, sep), x) == Get(Leaves(items, parent, sep), x)
    decreases items
  {
    GetCollect(Pairs(items, parent, sep), x);
    if items != [] {
      var front, last := items[..|items| - 1], items[|items| - 1];
      GetConcat(Pairs(front, parent, sep), PairsOf(last, parent, sep), x);
      GetConcat(Leaves(front, parent, sep), LeavesOf(last, parent, sep), x);
      GetLeaves(front, parent, sep, x);
      GetCollect(Pairs(front, parent, sep), x);
      if last.tree.Dict? {
        GetLeaves(last.tree.items, NewKey(parent, last.key, sep), sep, x);
      }
    }
  }

  predicate DifferentKeys<V>(items: seq<Item<V>>) {
    forall i, j | 0 <= i < j < |items| :: items[i].key != items[j].key
  }

  lemma {:induction false} CollectDiffers<V>(pairs: seq<Item<V>>)
    ensures DifferentKeys(Collect(pairs))
    decreases |pairs|
  {
    if pairs != [] {
      var front, last := Collect(pairs[..|pairs| - 1]), pairs[|pairs| - 1];
      CollectDiffers(pairs[..|pairs| - 1]);
      PutDiffers(front, last.key, last.tree);
    }
  }

  lemma PutDiffers<V>(items: seq<Item<V>>, key: string, tree: Tree<V>)
    requires DifferentKeys(items)
    ensures DifferentKeys(Put(items, key, tree))
  {
    var after := Put(items, key, tree);
    GetPut(items, key, tree, key);
    GetFinds(items, key);
    assert forall i | 0 <= i < |items| :: Keys(after)[i] == Keys(items)[i] == items[i].key;
    assert forall i | 0 <= i < |after| :: Keys(after)[i] == after[i].key;
  }

  lemma {:induction false} CollectKeeps<V>(pairs: seq<Item<V>>)
    requires DifferentKeys(pairs)
    ensures Collect(pairs) == pairs
    decreases |pairs|
  {
    if pairs != [] {
      var front, last := pairs[..|pairs| - 1], pairs[|pairs| - 1];
      CollectKeeps(front);
      if Get(front, last.key).Some? {
        GetFinds(front, last.key);
      }
      assert Get(front, last.key) == None;
      assert pairs == front + [last];
    }
  }

  lemma DifferInParts<V>(a: seq<Item<V>>, b: seq<Item<V>>)
    requires DifferentKeys(a + b)
    ensures DifferentKeys(a) && DifferentKeys(b)
  {
    var both := a + b;
    assert forall i | 0 <= i < |a| :: both[i] == a[i];
    assert forall i | 0 <= i < |b| :: both[|a| + i] == b[i];
  }

  lemma {:induction false} PairsAreLeaves<V>(items: seq<Item<V>>, parent: string, sep: string)
    requires DifferentKeys(Leaves(items, parent, sep))
    ensures Pairs(items, parent, sep) == Leaves(items, parent, sep)
    decreases items
  {
    if items != [] {
      var front, last := items[..|items| - 1], items[|items| - 1];
      DifferInParts(Leaves(front, parent, sep), LeavesOf(last, parent, sep));
      PairsAreLeaves(front, parent, sep);
      if last.tree.Dict? {
        PairsAreLeaves(last.tree.items, NewKey(parent, last.key, sep), sep);
        CollectKeeps(LeavesOf(last, parent, sep));
        assert PairsOf(last, parent, sep) == Flatten(last.tree.items, NewKey(parent, last.key, sep), sep);
      }
      assert PairsOf(last, parent, sep) == LeavesOf(last, parent, sep);
    }
  }

  /** No leaf is overwritten if and only if the joined keys of all leaf paths differ; then the flat dict is
      just the leaves in order. */
  lemma FlattenKeepsAllIff<V(!new)>(items: seq<Item<V>>, parent: string, sep: string)
    ensures Flatten(items, parent, sep) == Leaves(items, parent, sep) <==> DifferentKeys(Leaves(items, parent, sep))
  {
    CollectDiffers(Pairs(items, parent, sep));
    if DifferentKeys(Leaves(items, parent, sep)) {
      PairsAreLeaves(items, parent, sep);
      CollectKeeps(Pairs(items, parent, sep));
    }
  }

  // ----- Each of the three hypotheses is needed -----

  function Inner(): seq<Item<int>> { [Item("b", Leaf(1))] }

  function Nested(): seq<Item<int>> { [Item("a", Dict(Inner())), Item("a.b", Leaf(2))] }

  function Dotted(): seq<Item<int>> { [Item("a.b", Leaf(2))] }

  lemma InnerPairs()
    ensures Flatten(Inner(), "a", ".") == [Item("a.b", Leaf(1))]
  {
    assert "a" + "." + "b" == "a.b";
    assert Pairs(Inner()[..0], "a", ".") == [];
    assert Pairs(Inner(), "a", ".") == [Item("a.b", Leaf(1))];
    assert [Item("a.b", Leaf(1))][..0] == [];
  }

  lemma NestedPairs()
    ensures Pairs(Nested(), [], ".") == [Item("a.b", Leaf(1)), Item("a.b", Leaf(2))]
    ensures Pairs(Dotted(), [], ".") == [Item("a.b", Leaf(2))]
  {
    InnerPairs();
    assert Nested()[..1] == [Item("a", Dict(Inner()))];
    assert Nested()[..1][..0] == [] && Dotted()[..0] == [];
    assert Pairs(Nested()[..1], [], ".") == [Item("a.b", Leaf(1))];
  }

  lemma SameFlat(x: string)
    ensures Get(Flatten(Nested(), [], "."), x) == Get(Flatten(Dotted(), [], "."), x)
  {
    NestedPairs();
    var one, two := [Item("a.b", Leaf(1))], [Item("a.b", Leaf(2))];
    GetCollect(one + two, x);
    GetCollect(two, x);
    GetConcat(one, two, x);
    assert Pairs(Nested(), [], ".") == one + two;
    assert Get(one, x) == if x == "a.b" then Some(Leaf(1)) else None;
    assert Get(two, x) == if x == "a.b" then Some(Leaf(2)) else None;
  }

  lemma NestedIsNotDotted()
    ensures !Same(Dict(Nested()), Dict(Dotted()))
  {
    assert Get(Dotted(), Nested()[0].key) == None;
  }

  /** It can hide another entry: these two differ, and flatten to equal dicts. */
  lemma SeparatorHides()
    ensures SameEntries(Flatten(Nested(), [], "."), Flatten(Dotted(), [], ".")) && !Same(Dict(Nested()), Dict(Dotted()))
  {
    forall x: string ensures Get(Flatten(Nested(), [], "."), x) == Get(Flatten(Dotted(), [], "."), x) {
      SameFlat(x);
    }
    NestedIsNotDotted();
  }

  lemma SingleLeaf(key: string, parent: string, v: int)
    ensures Flatten([Item(key, Leaf(v))], parent, ".") == [Item(NewKey(parent, key, "."), Leaf(v))]
  {
    var items := [Item(key, Leaf(v))];
    assert items[..|items| - 1] == [] && Pairs(items[..|items| - 1], parent, ".") == [];
    assert PairsOf(items[0], parent, ".") == [Item(NewKey(parent, key, "."), Leaf(v))];
    CollectKeeps(Pairs(items, parent, "."));
  }

  lemma SingleDict(key: string, inner: seq<Item<int>>)
    ensures Pairs([Item(key, Dict(inner))], [], ".") == Flatten(inner, key, ".")
  {
    var items := [Item(key, Dict(inner))];
    assert items[..0] == [] && Pairs(items[..0], [], ".") == [];
  }

  lemma MissingKey(a: seq<Item<int>>, b: seq<Item<int>>)
    requires a != [] && Get(b, a[0].key) == None
    ensures !Same(Dict(a), Dict(b))
  {
  }

  /** An empty key disappears. */
  lemma EmptyKeyHides()
    ensures var a, b := [Item("", Dict([Item("a", Leaf(1))]))], [Item("a", Leaf(1))];
            Flatten(a, [], ".") == Flatten(b, [], ".") && !Same(Dict(a), Dict(b))
  {
    var a, b := [Item("", Dict([Item("a", Leaf(1))]))], [Item("a", Leaf(1))];
    SingleLeaf("a", [], 1);
    SingleDict("", b);
    CollectKeeps(b);
    MissingKey(a, b);
  }

  /** An empty inner dict disappears. */
  lemma EmptyDictHides()
    ensures var a: seq<Item<int>>, b: seq<Item<int>> := [Item("a", Dict([]))], [];
            Flatten(a, [], ".") == Flatten(b, [], ".") && !Same(Dict(a), Dict(b))
  {
    var a: seq<Item<int>>, b: seq<Item<int>> := [Item("a", Dict([]))], [];
    SingleDict("a", b);
    MissingKey(a, b);
  }
}
