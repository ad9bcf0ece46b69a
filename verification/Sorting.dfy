/** `sorted`, stable, for any total preorder. */
module Sorting {

  ghost predicate TotalOrder<T(!new)>(le: (T, T) -> bool) {
    && (forall a, b :: le(a, b) || le(b, a))
    && (forall a, b, c :: le(a, b) && le(b, c) ==> le(a, c))
  }

  predicate Ordered<T>(s: seq<T>, le: (T, T) -> bool) {
    forall i, j | 0 <= i < j < |s| :: le(s[i], s[j])
  }

  function Insert<T>(x: T, s: seq<T>, le: (T, T) -> bool): seq<T> {
    if s == [] || le(x, s[0]) then [x] + s else [s[0]] + Insert(x, s[1..], le)
  }

  function Sorted<T>(s: seq<T>, le: (T, T) -> bool): seq<T> {
    if s == [] then [] else Insert(s[0], Sorted(s[1..], le), le)
  }

  lemma {:induction false} InsertKeeps<T>(x: T, s: seq<T>, le: (T, T) -> bool)
    ensures multiset(Insert(x, s, le)) == multiset([x]) + multiset(s)
    ensures |Insert(x, s, le)| == |s| + 1
    decreases |s|
  {
    if s != [] && !le(x, s[0]) {
      InsertKeeps(x, s[1..], le);
      assert s == [s[0]] + s[1..];
    }
  }

  lemma {:induction false} InsertOrdered<T(!new)>(x: T, s: seq<T>, le: (T, T) -> bool)
    requires TotalOrder(le) && Ordered(s, le)
    ensures Ordered(Insert(x, s, le), le)
    decreases |s|
  {
    if s != [] && !le(x, s[0]) {
      var rest := Insert(x, s[1..], le);
      InsertOrdered(x, s[1..], le);
      InsertKeeps(x, s[1..], le);
      forall j | 0 <= j < |rest| ensures le(s[0], rest[j]) {
        assert rest[j] in multiset([x]) + multiset(s[1..]);
        assert rest[j] == x || rest[j] in s[1..];
      }
    }
  }

  /** Sorting yields an ordered permutation. */
  lemma {:induction false} SortedKeeps<T(!new)>(s: seq<T>, le: (T, T) -> bool)
    requires TotalOrder(le)
    ensures multiset(Sorted(s, le)) == multiset(s) && |Sorted(s, le)| == |s| && Ordered(Sorted(s, le), le)
    decreases |s|
  {
    if s != [] {
      SortedKeeps(s[1..], le);
      InsertKeeps(s[0], Sorted(s[1..], le), le);
      InsertOrdered(s[0], Sorted(s[1..], le), le);
      assert s == [s[0]] + s[1..];
    }
  }

  // ----- No repetitions -----

  lemma {:induction false} CountOnce<T>(s: seq<T>, x: T)
    requires forall i, j | 0 <= i < j < |s| :: s[i] != s[j]
    ensures multiset(s)[x] <= 1
    decreases |s|
  {
    if s != [] {
      var front, last := s[..|s| - 1], s[|s| - 1];
      CountOnce(front, x);
      assert s == front + [last] && last !in front;
    }
  }

  lemma CountTwice<T>(s: seq<T>, i: nat, j: nat)
    requires i < j < |s| && multiset(s)[s[i]] <= 1
    ensures s[i] != s[j]
  {
    var a, b := s[..j], s[j..];
    assert s == a + b && multiset(s) == multiset(a) + multiset(b);
    assert a[i] in multiset(a) && b[0] in multiset(b);
  }

  // ----- The two orders in use -----

  predicate NatLe(a: nat, b: nat) {
    a <= b
  }

  lemma NatLeTotal()
    ensures TotalOrder(NatLe)
  {
  }

  /** Python's order on strings: by code point, a prefix first. */
  predicate StringLe(a: string, b: string) {
    a == [] || (b != [] && (a[0] < b[0] || (a[0] == b[0] && StringLe(a[1..], b[1..]))))
  }

  lemma {:induction false} StringLeTotalAt(a: string, b: string)
    ensures StringLe(a, b) || StringLe(b, a)
    decreases |a|
  {
    if a != [] && b != [] {
      StringLeTotalAt(a[1..], b[1..]);
    }
  }

  lemma {:induction false} StringLeTransitiveAt(a: string, b: string, c: string)
    requires StringLe(a, b) && StringLe(b, c)
    ensures StringLe(a, c)
    decreases |a|
  {
    if a != [] && a[0] == b[0] == c[0] {
      StringLeTransitiveAt(a[1..], b[1..], c[1..]);
    }
  }

  lemma StringLeTotal()
    ensures TotalOrder(StringLe)
  {
    forall a, b ensures StringLe(a, b) || StringLe(b, a) {
      StringLeTotalAt(a, b);
    }
    forall a, b, c | StringLe(a, b) && StringLe(b, c) ensures StringLe(a, c) {
      StringLeTransitiveAt(a, b, c);
    }
  }
}
