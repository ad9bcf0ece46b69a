/** Grid search: the product of the parameter lists in order, and the agent that walks through it. */
module Grid {
  import opened Basics
  import opened ActionValues

  /** One explorable parameter; the action space is a list of them with different keys. */
  datatype Param = Param(key: string, values: seq<Value>)

  function Prefixed(v: Value, tails: seq<seq<Value>>): (r: seq<seq<Value>>)
    ensures |r| == |tails|
  {
    seq(|tails|, i requires 0 <= i < |tails| => [v] + tails[i])
  }

  function Cross(values: seq<Value>, tails: seq<seq<Value>>): seq<seq<Value>> {
    if values == [] then [] else Prefixed(values[0], tails) + Cross(values[1..], tails)
  }

  /** `itertools.product(*lists)`. */
  function Product(lists: seq<seq<Value>>): seq<seq<Value>> {
    if lists == [] then [[]] else Cross(lists[0], Product(lists[1..]))
  }

  // ----- Mixed-radix numbers -----

  function Count(lists: seq<seq<Value>>): nat {
    if lists == [] then 1 else |lists[0]| * Count(lists[1..])
  }

  lemma MulLess(x: nat, y: nat, c: nat)
    requires x * c < y * c
    ensures x < y && c > 0
  {
    if y <= x {
      MulMono(y, x, c);
    }
  }

  lemma MulMono(y: nat, x: nat, c: nat)
    requires y <= x
    ensures y * c <= x * c
  {
    assert x * c == y * c + (x - y) * c;
  }

  lemma DivMod(i: nat, n: nat, c: nat)
    requires i < n * c
    ensures c > 0 && i / c < n && i % c < c && i == (i / c) * c + i % c
  {
    MulLess(0, n, c);
    MulLess(i / c, n, c);
  }

  lemma ModOf(a: nat, b: nat, c: nat)
    requires b < c
    ensures (a * c + b) / c == a && (a * c + b) % c == b
  {
    var i := a * c + b;
    MulLess(i / c, a + 1, c);
    MulLess(a, i / c + 1, c);
  }

  lemma Below(a: nat, b: nat, n: nat, c: nat)
    requires a < n && b < c
    ensures a * c + b < n * c
  {
    assert (a + 1) * c <= n * c;
  }

  /** Which element of each list combination `i` takes: the digits of `i`, the last list the fastest. */
  function Digits(lists: seq<seq<Value>>, i: nat): (d: seq<nat>)
    requires i < Count(lists)
    ensures |d| == |lists| && forall k | 0 <= k < |lists| :: d[k] < |lists[k]|
  {
    if lists == [] then []
    else
      var c := Count(lists[1..]);
      DivMod(i, |lists[0]|, c);
      [i / c] + Digits(lists[1..], i % c)
  }

  predicate AreDigits(lists: seq<seq<Value>>, d: seq<nat>) {
    |d| == |lists| && forall k | 0 <= k < |lists| :: d[k] < |lists[k]|
  }

  /** The number with given digits. */
  function Number(lists: seq<seq<Value>>, d: seq<nat>): (i: nat)
    requires AreDigits(lists, d)
    ensures i < Count(lists)
  {
    if lists == [] then 0
    else
      Below(d[0], Number(lists[1..], d[1..]), |lists[0]|, Count(lists[1..]));
      d[0] * Count(lists[1..]) + Number(lists[1..], d[1..])
  }

  lemma {:induction false} NumberOfDigits(lists: seq<seq<Value>>, i: nat)
    requires i < Count(lists)
    ensures Number(lists, Digits(lists, i)) == i
    decreases |lists|
  {
    if lists != [] {
      var c := Count(lists[1..]);
      DivMod(i, |lists[0]|, c);
      NumberOfDigits(lists[1..], i % c);
      assert Digits(lists, i)[1..] == Digits(lists[1..], i % c);
    }
  }

  lemma {:induction false} DigitsOfNumber(lists: seq<seq<Value>>, d: seq<nat>)
    requires AreDigits(lists, d)
    ensures Digits(lists, Number(lists, d)) == d
    decreases |lists|
  {
    if lists != [] {
      DigitsOfNumber(lists[1..], d[1..]);
      ModOf(d[0], Number(lists[1..], d[1..]), Count(lists[1..]));
      assert d == [d[0]] + d[1..];
    }
  }

  // ----- The product, combination by combination -----

  lemma {:induction false} CrossLength(values: seq<Value>, tails: seq<seq<Value>>)
    ensures |Cross(values, tails)| == |values| * |tails|
    decreases |values|
  {
    if values != [] {
      CrossLength(values[1..], tails);
      assert |values| * |tails| == |tails| + (|values| - 1) * |tails|;
    }
  }

  lemma {:induction false} CrossAt(values: seq<Value>, tails: seq<seq<Value>>, a: nat, b: nat)
    requires a < |values| && b < |tails|
    ensures a * |tails| + b < |Cross(values, tails)|
    ensures Cross(values, tails)[a * |tails| + b] == [values[a]] + tails[b]
    decreases a
  {
    CrossLength(values, tails);
    Below(a, b, |values|, |tails|);
    if a > 0 {
      CrossAt(values[1..], tails, a - 1, b);
      assert a * |tails| + b == |tails| + ((a - 1) * |tails| + b);
    }
  }

  lemma {:induction false} ProductLength(lists: seq<seq<Value>>)
    ensures |Product(lists)| == Count(lists)
    decreases |lists|
  {
    if lists != [] {
      ProductLength(lists[1..]);
      CrossLength(lists[0], Product(lists[1..]));
    }
  }

  /** The elements that the digits select. */
  function Selected(lists: seq<seq<Value>>, d: seq<nat>): (c: seq<Value>)
    requires AreDigits(lists, d)
    ensures |c| == |lists|
  {
    seq(|lists|, k requires 0 <= k < |lists| => lists[k][d[k]])
  }

  /** There are as many combinations as the product of the lengths, and number `i` is the one that the
      digits of `i` select. */
  lemma {:induction false} ProductAt(lists: seq<seq<Value>>, i: nat)
    requires i < Count(lists)
    ensures |Product(lists)| == Count(lists) && Product(lists)[i] == Selected(lists, Digits(lists, i))
    decreases |lists|
  {
    ProductLength(lists);
    if lists != [] {
      var c := Count(lists[1..]);
      DivMod(i, |lists[0]|, c);
      ProductLength(lists[1..]);
      ProductAt(lists[1..], i % c);
      CrossAt(lists[0], Product(lists[1..]), i / c, i % c);
      SelectedFirst(lists, i);
    }
  }

  lemma SelectedFirst(lists: seq<seq<Value>>, i: nat)
    requires lists != [] && i < Count(lists)
    ensures var c := Count(lists[1..]);
            && c > 0 && i / c < |lists[0]| && i % c < c
            && Selected(lists, Digits(lists, i)) == [lists[0][i / c]] + Selected(lists[1..], Digits(lists[1..], i % c))
  {
    DivMod(i, |lists[0]|, Count(lists[1..]));
  }

  predicate NoRepeats(values: seq<Value>) {
    forall i, j | 0 <= i < j < |values| :: values[i] != values[j]
  }

  /** Every choice of one element per list is some combination, and when no list repeats an element
      no combination comes twice. */
  lemma ProductIsEveryChoiceOnce(lists: seq<seq<Value>>, d: seq<nat>)
    requires AreDigits(lists, d)
    ensures |Product(lists)| == Count(lists) && Product(lists)[Number(lists, d)] == Selected(lists, d)
    ensures (forall k | 0 <= k < |lists| :: NoRepeats(lists[k])) ==>
              forall j | 0 <= j < Count(lists) && j != Number(lists, d) :: Product(lists)[j] != Selected(lists, d)
  {
    var i := Number(lists, d);
    ProductAt(lists, i);
    DigitsOfNumber(lists, d);
    if forall k | 0 <= k < |lists| :: NoRepeats(lists[k]) {
      forall j: nat | j < Count(lists) && j != i ensures Product(lists)[j] != Selected(lists, d) {
        ProductAt(lists, j);
        NumberOfDigits(lists, j);
        var e := Digits(lists, j);
        var k := FirstDifference(e, d);
        assert NoRepeats(lists[k]);
        assert Selected(lists, e)[k] != Selected(lists, d)[k];
      }
    }
  }

  // ----- Actions -----

  function Lists(space: seq<Param>): (lists: seq<seq<Value>>)
    ensures |lists| == |space|
  {
    seq(|space|, k requires 0 <= k < |space| => space[k].values)
  }

  /** `dict(zip(keys, combination))`. */
  function Zip(space: seq<Param>, combination: seq<Value>): map<string, Value>
    requires |combination| == |space|
  {
    if space == [] then map[]
    else
      var last := |space| - 1;
      Zip(space[..last], combination[..last])[space[last].key := combination[last]]
  }

  /** The actions of the grid, in order. */
  function Actions(space: seq<Param>): (r: seq<Value>)
    ensures |r| == Count(Lists(space))
  {
    var lists := Lists(space);
    ProductLength(lists);
    seq(Count(lists), i requires 0 <= i < Count(lists) => ProductAt(lists, i); Dict(Zip(space, Product(lists)[i])))
  }

  predicate DifferentKeys(space: seq<Param>) {
    forall i, j | 0 <= i < j < |space| :: space[i].key != space[j].key
  }

  lemma {:induction false} ZipAt(space: seq<Param>, combination: seq<Value>, k: nat)
    requires |combination| == |space| && DifferentKeys(space) && k < |space|
    ensures space[k].key in Zip(space, combination) && Zip(space, combination)[space[k].key] == combination[k]
    decreases |space|
  {
    var last := |space| - 1;
    if k < last {
      ZipAt(space[..last], combination[..last], k);
    }
  }

  /** Action `i` gives each key the element of its list that the digits of `i` select. */
  lemma ActionAt(space: seq<Param>, i: nat, k: nat)
    requires DifferentKeys(space) && i < Count(Lists(space)) && k < |space|
    ensures var action := Actions(space)[i];
            action.Dict? && space[k].key in action.fields
            && action.fields[space[k].key] == space[k].values[Digits(Lists(space), i)[k]]
  {
    ProductAt(Lists(space), i);
    ZipAt(space, Product(Lists(space))[i], k);
  }

  lemma WhereDigitsDiffer(lists: seq<seq<Value>>, i: nat, j: nat) returns (k: nat)
    requires i < j < Count(lists)
    ensures k < |lists| && Digits(lists, i)[k] != Digits(lists, j)[k]
  {
    var d, e := Digits(lists, i), Digits(lists, j);
    NumberOfDigits(lists, i);
    NumberOfDigits(lists, j);
    k := FirstDifference(d, e);
  }

  function FirstDifference(d: seq<nat>, e: seq<nat>): (k: nat)
    requires |d| == |e| && d != e
    ensures k < |d| && d[k] != e[k]
  {
    if d[0] != e[0] then 0
    else
      assert d == [d[0]] + d[1..] && e == [e[0]] + e[1..];
      1 + FirstDifference(d[1..], e[1..])
  }

  /** Different combinations are different actions. */
  lemma ActionsDiffer(space: seq<Param>, i: nat, j: nat)
    requires DifferentKeys(space) && i < j < Count(Lists(space))
    requires forall k | 0 <= k < |space| :: NoRepeats(space[k].values)
    ensures Actions(space)[i] != Actions(space)[j]
  {
    var k := WhereDigitsDiffer(Lists(space), i, j);
    ActionAt(space, i, k);
    ActionAt(space, j, k);
    assert NoRepeats(space[k].values);
  }

  // ----- The agent -----

  class GridSearchAgent {
    const space: seq<Param>
    var actionCombinations: seq<seq<Value>>
    var maxSteps: nat
    var index: nat

    ghost predicate Valid()
      reads this
    {
      actionCombinations == Product(Lists(space)) && maxSteps == Count(Lists(space)) && index <= maxSteps
    }

    constructor (space: seq<Param>)
      ensures Valid() && this.space == space && index == 0
    {
      this.space := space;
      index := 0;
      actionCombinations, maxSteps := [], 0;
      new;
      Configure();
    }

    method Configure()
      requires index == 0
      modifies this
      ensures Valid() && index == 0
    {
      var parameterValues := [];
      for k := 0 to |space|
        invariant parameterValues == Lists(space)[..k]
        invariant index == 0
      {
        parameterValues := parameterValues + [space[k].values];
      }
      assert Lists(space)[..|space|] == Lists(space);
      ProductLength(Lists(space));
      actionCombinations := Product(parameterValues);
      maxSteps := |actionCombinations|;
    }

    /** The next step number and action; past the end the list index fails. */
    method SelectAction() returns (r: Result<(nat, Value)>)
      requires Valid()
      modifies this`index
      ensures Valid()
      ensures old(index) < maxSteps ==> index == old(index) + 1 && r == Ok((index, Actions(space)[old(index)]))
      ensures old(index) == maxSteps ==> r.Raised? && index == old(index)
    {
      ProductLength(Lists(space));
      if index >= |actionCombinations| { return Raised("list index out of range"); }
      ProductAt(Lists(space), index);
      var action := Dict(Zip(space, actionCombinations[index]));
      index := index + 1;
      r := Ok((index, action));
    }

    /** `get_all_combinations`. */
    method GetAllCombinations() returns (r: seq<Value>)
      requires Valid()
      ensures r == Actions(space)
    {
      r := [];
      ProductLength(Lists(space));
      for i := 0 to |actionCombinations|
        invariant |r| == i && forall j | 0 <= j < i :: r[j] == Actions(space)[j]
      {
        ProductAt(Lists(space), i);
        r := r + [Dict(Zip(space, actionCombinations[i]))];
      }
    }
  }
}
