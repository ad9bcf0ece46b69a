/** The ranges `format_range` prints for distinct numbers are the maximal runs, and no shorter list
    of ranges covers the same numbers. */
module NodeListRuns {
  import opened Sorting
  import opened NodeList

  predicate StrictlyAscending(s: seq<nat>) {
    forall i, j | 0 <= i < j < |s| :: s[i] < s[j]
  }

  predicate In(n: nat, r: Span) {
    r.lo <= n <= r.hi
  }

  predicate Covered(n: nat, runs: seq<Span>) {
    exists i | 0 <= i < |runs| :: In(n, runs[i])
  }

  /** Proper, ascending, and with a number missing between neighbours. */
  predicate Separated(runs: seq<Span>) {
    && (forall i | 0 <= i < |runs| :: runs[i].lo <= runs[i].hi)
    && (forall i | 0 <= i < |runs| - 1 :: runs[i].hi + 1 < runs[i + 1].lo)
  }

  lemma {:induction false} RunsFromFacts(lo: nat, hi: nat, rest: seq<nat>)
    requires lo <= hi && StrictlyAscending(rest) && forall i | 0 <= i < |rest| :: hi < rest[i]
    ensures var runs := RunsFrom(lo, hi, rest);
            && runs != [] && runs[0].lo == lo && Separated(runs)
            && forall n: nat {:trigger Covered(n, runs)} :: Covered(n, runs) <==> lo <= n <= hi || n in rest
    decreases |rest|
  {
    var runs := RunsFrom(lo, hi, rest);
    if rest == [] {
      forall n: nat ensures Covered(n, runs) <==> lo <= n <= hi {
        assert runs[0] == Span(lo, hi);
        assert In(n, runs[0]) <==> lo <= n <= hi;
      }
    } else if rest[0] == hi + 1 {
      RunsFromFacts(lo, rest[0], rest[1..]);
      forall n: nat ensures Covered(n, runs) <==> lo <= n <= hi || n in rest {
        assert n in rest <==> n == rest[0] || n in rest[1..];
      }
    } else {
      var tail := RunsFrom(rest[0], rest[0], rest[1..]);
      RunsFromFacts(rest[0], rest[0], rest[1..]);
      forall n: nat ensures Covered(n, runs) <==> lo <= n <= hi || n in rest {
        assert n in rest <==> n == rest[0] || n in rest[1..];
        ConsCovered(Span(lo, hi), tail, n);
      }
    }
  }

  lemma ConsCovered(r: Span, tail: seq<Span>, n: nat)
    ensures Covered(n, [r] + tail) <==> In(n, r) || Covered(n, tail)
  {
    var runs := [r] + tail;
    if In(n, r) {
      assert In(n, runs[0]);
    }
    if i :| 0 <= i < |tail| && In(n, tail[i]) {
      assert In(n, runs[i + 1]);
    }
    if i :| 0 <= i < |runs| && In(n, runs[i]) {
      assert i == 0 || In(n, tail[i - 1]);
    }
  }

  /** The runs of distinct sorted numbers are separated and cover exactly the numbers. */
  lemma RunsAreMaximal(nums: seq<nat>)
    requires StrictlyAscending(nums)
    ensures Separated(Runs(nums)) && forall n: nat {:trigger Covered(n, Runs(nums))} :: Covered(n, Runs(nums)) <==> n in nums
  {
    if nums != [] {
      RunsFromFacts(nums[0], nums[0], nums[1..]);
      assert nums == [nums[0]] + nums[1..];
    }
  }

  // ----- Minimality -----

  /** Where `n` is covered. */
  function Cover(n: nat, runs: seq<Span>): (i: nat)
    requires Covered(n, runs)
    ensures i < |runs| && In(n, runs[i])
  {
    if In(n, runs[0]) then 0
    else
      assert forall i | 1 <= i < |runs| :: runs[i] == runs[1..][i - 1];
      1 + Cover(n, runs[1..])
  }

  lemma {:induction false} SeparatedFar(runs: seq<Span>, i: nat, j: nat)
    requires Separated(runs) && i < j < |runs|
    ensures runs[i].hi + 1 < runs[j].lo
    decreases j
  {
    if i < j - 1 {
      SeparatedFar(runs, i, j - 1);
    }
  }

  /** The number after a run belongs to no run. */
  lemma GapAfter(runs: seq<Span>, i: nat)
    requires Separated(runs) && i < |runs| - 1
    ensures !Covered(runs[i].hi + 1, runs)
  {
    forall k | 0 <= k < |runs| ensures !In(runs[i].hi + 1, runs[k]) {
      if k < i {
        SeparatedFar(runs, k, i);
      } else if i < k {
        SeparatedFar(runs, i, k);
      }
    }
  }

  /** `other` covers the same numbers as `runs`. */
  ghost predicate Same(runs: seq<Span>, other: seq<Span>) {
    forall n: nat {:trigger Covered(n, other)} :: Covered(n, other) <==> Covered(n, runs)
  }

  /** Two runs never start in the same range of another list that covers the same numbers. */
  lemma StartsApart(runs: seq<Span>, other: seq<Span>, i: nat, j: nat)
    requires Separated(runs) && Same(runs, other) && i < j < |runs|
    ensures Covered(runs[i].lo, other) && Covered(runs[j].lo, other)
    ensures Cover(runs[i].lo, other) != Cover(runs[j].lo, other)
  {
    assert In(runs[i].lo, runs[i]) && In(runs[j].lo, runs[j]);
    assert Covered(runs[i].lo, runs) && Covered(runs[j].lo, runs);
    SeparatedFar(runs, i, j);
    GapAfter(runs, i);
    var k := Cover(runs[i].lo, other);
    if k == Cover(runs[j].lo, other) {
      assert In(runs[i].hi + 1, other[k]);
      assert Covered(runs[i].hi + 1, other);
    }
  }

  lemma StartCovered(runs: seq<Span>, other: seq<Span>, i: nat)
    requires Separated(runs) && Same(runs, other) && i < |runs|
    ensures Covered(runs[i].lo, other)
  {
    assert In(runs[i].lo, runs[i]);
    assert Covered(runs[i].lo, runs);
  }

  /** The range in which the `i`-th run starts. */
  ghost function StartRange(runs: seq<Span>, other: seq<Span>, i: nat): (k: nat)
    requires Separated(runs) && Same(runs, other) && i < |runs|
    ensures k < |other|
  {
    StartCovered(runs, other, i);
    Cover(runs[i].lo, other)
  }

  lemma StartRangesDiffer(runs: seq<Span>, other: seq<Span>, i: nat, j: nat)
    requires Separated(runs) && Same(runs, other) && i < j < |runs|
    ensures StartRange(runs, other, i) != StartRange(runs, other, j)
  {
    StartsApart(runs, other, i, j);
  }

  /** Different pigeons, different holes. */
  lemma {:induction false} Pigeonhole(holes: seq<nat>, n: nat)
    requires forall i | 0 <= i < |holes| :: holes[i] < n
    requires forall i, j | 0 <= i < j < |holes| :: holes[i] != holes[j]
    ensures |holes| <= n
    decreases n
  {
    if holes != [] {
      assert holes[0] < n;
      if k :| 0 <= k < |holes| && holes[k] == n - 1 {
        Pigeonhole(holes[..k] + holes[k + 1..], n - 1);
      } else {
        Pigeonhole(holes, n - 1);
      }
    }
  }

  /** No list of ranges that covers exactly the numbers is shorter than the printed one. */
  lemma RunsAreFewest(nums: seq<nat>, other: seq<Span>)
    requires StrictlyAscending(nums)
    requires forall n: nat {:trigger Covered(n, other)} :: Covered(n, other) <==> n in nums
    ensures |Runs(nums)| <= |other|
  {
    var runs := Runs(nums);
    RunsAreMaximal(nums);
    assert Same(runs, other);
    var holes := seq(|runs|, i requires 0 <= i < |runs| => StartRange(runs, other, i));
    forall i, j | 0 <= i < j < |runs| ensures holes[i] != holes[j] {
      StartRangesDiffer(runs, other, i, j);
    }
    Pigeonhole(holes, |other|);
  }

  // ----- The numbers as they are given -----

  predicate NoRepeats(nums: seq<nat>) {
    forall i, j | 0 <= i < j < |nums| :: nums[i] != nums[j]
  }

  lemma SortedAscends(nums: seq<nat>)
    requires NoRepeats(nums)
    ensures StrictlyAscending(Sorted(nums, NatLe)) && forall n :: n in Sorted(nums, NatLe) <==> n in nums
  {
    var s := Sorted(nums, NatLe);
    NatLeTotal();
    SortedKeeps(nums, NatLe);
    forall n ensures n in s <==> n in nums {
      assert n in multiset(s) <==> n in multiset(nums);
    }
    forall i, j | 0 <= i < j < |s| ensures s[i] < s[j] {
      CountOnce(nums, s[i]);
      CountTwice(s, i, j);
    }
  }

  /** For numbers without repetitions, in any order, the ranges are proper, ascending and separated by gaps,
      they cover exactly the numbers, and no shorter list of ranges does. */
  lemma PrintedRangesAreBest(nums: seq<nat>, other: seq<Span>)
    requires NoRepeats(nums)
    ensures var runs := Runs(Sorted(nums, NatLe));
            && Separated(runs)
            && (forall n: nat {:trigger Covered(n, runs)} :: Covered(n, runs) <==> n in nums)
            && ((forall n: nat {:trigger Covered(n, other)} :: Covered(n, other) <==> n in nums) ==> |runs| <= |other|)
  {
    var s := Sorted(nums, NatLe);
    SortedAscends(nums);
    RunsAreMaximal(s);
    if forall n: nat {:trigger Covered(n, other)} :: Covered(n, other) <==> n in nums {
      RunsAreFewest(s, other);
    }
  }
}
