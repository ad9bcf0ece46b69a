/** `TestRunsGrouper.groups`: the runs of a report, split by the fields to group by. */
module Grouping {

  /** `trs`, the fields, and what `get_value` answers for a run and a field.  Values that Python calls
      equal are one `V`. */
  class TestRunsGrouper<Run, V(==)> {
    const trs: seq<Run>
    const groupBy: seq<string>
    const getValue: (Run, string) -> V

    constructor (trs: seq<Run>, groupBy: seq<string>, getValue: (Run, string) -> V)
      ensures this.trs == trs && this.groupBy == groupBy && this.getValue == getValue
    {
      this.trs, this.groupBy, this.getValue := trs, groupBy, getValue;
    }

    /** The values of all the fields to group by. */
    function Key(tr: Run): seq<V> {
      seq(|groupBy|, i requires 0 <= i < |groupBy| => getValue(tr, groupBy[i]))
    }

    lemma EqualKeys(a: Run, b: Run)
      ensures Key(a) == Key(b) <==> forall i | 0 <= i < |groupBy| :: getValue(a, groupBy[i]) == getValue(b, groupBy[i])
    {
      if Key(a) == Key(b) {
        forall i | 0 <= i < |groupBy| ensures getValue(a, groupBy[i]) == getValue(b, groupBy[i]) {
          assert Key(a)[i] == Key(b)[i];
        }
      }
    }

    /** `groups`, without the names: each run is compared with the first member of each group only. */
    method Groups() returns (groups: seq<seq<Run>>)
      ensures groups == if groupBy == [] then [trs] else Classes(trs, tr => Key(tr))
    {
      if groupBy == [] { return [trs]; }
      ghost var key := tr => Key(tr);
      groups := [];
      for i := 0 to |trs|
        invariant groups == Classes(trs[..i], key)
      {
        ClassesNext(trs[..i], trs[i], key);
        assert trs[..i + 1] == trs[..i] + [trs[i]];
        groups := AddRun(groups, trs[..i], trs[i]);
      }
      assert trs[..|trs|] == trs;
    }

    /** The inner loop, with its `else`. */
    method AddRun(before: seq<seq<Run>>, ghost earlier: seq<Run>, tr: Run) returns (groups: seq<seq<Run>>)
      requires before == Classes(earlier, tr => Key(tr))
      ensures groups == Added(earlier, tr, tr => Key(tr))
    {
      ghost var key := tr => Key(tr);
      groups := before;
      for g := 0 to |before|
        invariant groups == before
        invariant forall h | 0 <= h < g :: Key(Firsts(earlier, key)[h]) != Key(tr)
      {
        FirstOfClass(earlier, g, key);
        var matched := forall i | 0 <= i < |groupBy| :: getValue(tr, groupBy[i]) == getValue(before[g][0], groupBy[i]);
        EqualKeys(tr, before[g][0]);
        if matched { return before[g := before[g] + [tr]]; }
      }
      groups := before + [[tr]];
    }
  }

  // ----- The classes, independently of the loop -----

  /** The first run of the list with the key of `t`; the end when there is none. */
  function Position<Run, K(==)>(firsts: seq<Run>, t: Run, key: Run -> K): (i: nat)
    ensures i <= |firsts| && (i < |firsts| ==> key(firsts[i]) == key(t))
    ensures forall k | 0 <= k < i :: key(firsts[k]) != key(t)
  {
    if firsts == [] || key(firsts[0]) == key(t) then 0
    else
      assert forall i | 1 <= i < |firsts| :: firsts[i] == firsts[1..][i - 1];
      1 + Position(firsts[1..], t, key)
  }

  /** The runs whose key no earlier one has, in order. */
  function Firsts<Run, K(==)>(trs: seq<Run>, key: Run -> K): seq<Run> {
    if trs == [] then []
    else
      var front, t := Firsts(trs[..|trs| - 1], key), trs[|trs| - 1];
      if Position(front, t, key) < |front| then front else front + [t]
  }

  /** All the runs with a key, in order. */
  function Having<Run, K(==)>(trs: seq<Run>, k: K, key: Run -> K): seq<Run> {
    if trs == [] then []
    else Having(trs[..|trs| - 1], k, key) + if key(trs[|trs| - 1]) == k then [trs[|trs| - 1]] else []
  }

  /** The classes of equal keys, ordered by first appearance, each in the original order. */
  function Classes<Run, K(==)>(trs: seq<Run>, key: Run -> K): (r: seq<seq<Run>>)
    ensures |r| == |Firsts(trs, key)|
  {
    var firsts := Firsts(trs, key);
    seq(|firsts|, i requires 0 <= i < |firsts| => Having(trs, key(firsts[i]), key))
  }

  /** What one more run does: join the class with its key, or open a new one at the end. */
  function Added<Run, K(==)>(trs: seq<Run>, t: Run, key: Run -> K): seq<seq<Run>> {
    var classes, p := Classes(trs, key), Position(Firsts(trs, key), t, key);
    if p < |classes| then classes[p := classes[p] + [t]] else classes + [[t]]
  }

  lemma {:induction false} FirstsDiffer<Run, K>(trs: seq<Run>, key: Run -> K)
    ensures forall i, j | 0 <= i < j < |Firsts(trs, key)| :: key(Firsts(trs, key)[i]) != key(Firsts(trs, key)[j])
    decreases |trs|
  {
    if trs != [] {
      FirstsDiffer(trs[..|trs| - 1], key);
    }
  }

  lemma {:induction false} NoneHaving<Run, K>(trs: seq<Run>, k: K, key: Run -> K)
    requires forall i | 0 <= i < |Firsts(trs, key)| :: key(Firsts(trs, key)[i]) != k
    ensures Having(trs, k, key) == []
    decreases |trs|
  {
    if trs != [] {
      var front, last := trs[..|trs| - 1], trs[|trs| - 1];
      var before, firsts := Firsts(front, key), Firsts(trs, key);
      var p := Position(before, last, key);
      assert forall i | 0 <= i < |before| :: firsts[i] == before[i];
      assert key(firsts[p]) == key(last);
      NoneHaving(front, k, key);
    }
  }

  /** A first run leads its class. */
  lemma {:induction false} FirstOfClass<Run, K>(trs: seq<Run>, g: nat, key: Run -> K)
    requires g < |Firsts(trs, key)|
    ensures var r := Firsts(trs, key)[g]; Having(trs, key(r), key) != [] && Having(trs, key(r), key)[0] == r
    decreases |trs|
  {
    var front, t := trs[..|trs| - 1], trs[|trs| - 1];
    if g < |Firsts(front, key)| {
      FirstOfClass(front, g, key);
    } else {
      NoneHaving(front, key(t), key);
    }
  }

  lemma ClassesNext<Run, K>(trs: seq<Run>, t: Run, key: Run -> K)
    ensures Classes(trs + [t], key) == Added(trs, t, key)
  {
    var after, firsts := trs + [t], Firsts(trs, key);
    var p := Position(firsts, t, key);
    assert after[..|trs|] == trs;
    FirstsDiffer(trs, key);
    if p == |firsts| {
      NoneHaving(trs, key(t), key);
    }
    var now := Firsts(after, key);
    forall i | 0 <= i < |now| ensures Classes(after, key)[i] == Added(trs, t, key)[i] {
      assert Having(after, key(now[i]), key) == Having(trs, key(now[i]), key) + if key(t) == key(now[i]) then [t] else [];
    }
  }

  // ----- What the classes are -----

  lemma {:induction false} HavingMembers<Run, K>(trs: seq<Run>, k: K, key: Run -> K, i: nat)
    requires i < |Having(trs, k, key)|
    ensures key(Having(trs, k, key)[i]) == k
    decreases |trs|
  {
    if i < |Having(trs[..|trs| - 1], k, key)| {
      HavingMembers(trs[..|trs| - 1], k, key, i);
    }
  }

  /** Two grouped runs share a group exactly when their keys are equal. */
  lemma TogetherIffEqual<Run, K>(trs: seq<Run>, key: Run -> K, g: nat, i: nat, h: nat, j: nat)
    requires var c := Classes(trs, key); g < |c| && h < |c| && i < |c[g]| && j < |c[h]|
    ensures var c := Classes(trs, key); key(c[g][i]) == key(c[h][j]) <==> g == h
  {
    var firsts := Firsts(trs, key);
    HavingMembers(trs, key(firsts[g]), key, i);
    HavingMembers(trs, key(firsts[h]), key, j);
    FirstsDiffer(trs, key);
  }

  function Flat<Run>(groups: seq<seq<Run>>): seq<Run> {
    if groups == [] then [] else Flat(groups[..|groups| - 1]) + groups[|groups| - 1]
  }

  lemma {:induction false} FlatGrows<Run>(groups: seq<seq<Run>>, p: nat, t: Run)
    requires p < |groups|
    ensures multiset(Flat(groups[p := groups[p] + [t]])) == multiset(Flat(groups)) + multiset{t}
    decreases |groups|
  {
    var last := |groups| - 1;
    var after := groups[p := groups[p] + [t]];
    if p < last {
      FlatGrows(groups[..last], p, t);
      assert after[..last] == groups[..last][p := groups[..last][p] + [t]];
    } else {
      assert after[..last] == groups[..last];
    }
  }

  /** No run is lost or repeated. */
  lemma {:induction false} NothingLost<Run, K>(trs: seq<Run>, key: Run -> K)
    ensures multiset(Flat(Classes(trs, key))) == multiset(trs)
    decreases |trs|
  {
    if trs != [] {
      var front, t := trs[..|trs| - 1], trs[|trs| - 1];
      NothingLost(front, key);
      assert trs == front + [t];
      ClassesNext(front, t, key);
      var classes := Classes(front, key);
      var p := Position(Firsts(front, key), t, key);
      if p < |classes| {
        FlatGrows(classes, p, t);
      } else {
        assert (classes + [[t]])[..|classes|] == classes;
      }
    }
  }

  /** The order inside a group is that of the runs, and groups come in the order of their first runs: the
      `n` first runs form the first classes of any longer list. */
  lemma {:induction false} EarlierGroupsFirst<Run, K>(trs: seq<Run>, n: nat, key: Run -> K)
    requires n <= |trs|
    ensures Firsts(trs[..n], key) <= Firsts(trs, key)
    ensures forall g | 0 <= g < |Firsts(trs[..n], key)| :: Classes(trs[..n], key)[g] <= Classes(trs, key)[g]
    decreases |trs|
  {
    if n == |trs| {
      assert trs[..n] == trs;
    } else {
      var front := trs[..|trs| - 1];
      EarlierGroupsFirst(front, n, key);
      assert front[..n] == trs[..n] && trs == front + [trs[|trs| - 1]];
      ClassesNext(front, trs[|trs| - 1], key);
    }
  }
}
