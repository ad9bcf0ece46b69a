/** The round trip loses nothing exactly when each prefix has one numeral width. */
module NodeListExact {
  import opened Basics
  import opened Strings
  import opened Sorting
  import opened NodeList
  import opened NodeListTrip

  /** A name re-printed with the widest padding its prefix has in `all`. */
  function Renamed(x: Part, all: seq<Part>): string {
    x.prefix + Pad(x.num, Width(all, x.prefix))
  }

  function RenamedAll(parts: seq<Part>, all: seq<Part>): (names: seq<string>)
    ensures |names| == |parts| && forall i | 0 <= i < |parts| :: names[i] == Renamed(parts[i], all)
  {
    seq(|parts|, i requires 0 <= i < |parts| => Renamed(parts[i], all))
  }

  /** The names of `parts` with one prefix, and the padding of `all`. */
  function Block(p: string, parts: seq<Part>, all: seq<Part>): seq<string> {
    Names(p, Sorted(Nums(parts, p), NatLe), Width(all, p))
  }

  /** Prefix by prefix. */
  function Blocks(ps: seq<string>, parts: seq<Part>, all: seq<Part>): seq<string> {
    if ps == [] then [] else Block(ps[0], parts, all) + Blocks(ps[1..], parts, all)
  }

  lemma {:induction false} CanonicalIsBlocks(groups: seq<Group>, ps: seq<string>, parts: seq<Part>)
    requires |groups| == |ps| && forall i | 0 <= i < |ps| :: groups[i] == GroupFor(parts, ps[i])
    ensures GroupNamesOf(groups) == Blocks(ps, parts, parts)
    decreases |ps|
  {
    if ps != [] {
      CanonicalIsBlocks(groups[1..], ps[1..], parts);
    }
  }

  // ----- Sorting and grouping only permute -----

  lemma {:induction false} NamesInsert(p: string, x: nat, s: seq<nat>, w: nat)
    ensures multiset(Names(p, Insert(x, s, NatLe), w)) == multiset{p + Pad(x, w)} + multiset(Names(p, s, w))
    decreases |s|
  {
    if s == [] || NatLe(x, s[0]) {
      assert Names(p, [x] + s, w) == [p + Pad(x, w)] + Names(p, s, w);
    } else {
      NamesInsert(p, x, s[1..], w);
      var rest := Insert(x, s[1..], NatLe);
      assert Names(p, [s[0]] + rest, w) == [p + Pad(s[0], w)] + Names(p, rest, w);
      assert Names(p, s, w) == [p + Pad(s[0], w)] + Names(p, s[1..], w);
    }
  }

  lemma {:induction false} NamesSorted(p: string, s: seq<nat>, w: nat)
    ensures multiset(Names(p, Sorted(s, NatLe), w)) == multiset(Names(p, s, w))
    decreases |s|
  {
    if s != [] {
      NamesSorted(p, s[1..], w);
      NamesInsert(p, s[0], Sorted(s[1..], NatLe), w);
      assert Names(p, s, w) == [p + Pad(s[0], w)] + Names(p, s[1..], w);
    }
  }

  lemma NamesSnoc(p: string, s: seq<nat>, x: nat, w: nat)
    ensures Names(p, s + [x], w) == Names(p, s, w) + [p + Pad(x, w)]
  {
  }

  lemma BlockBump(parts: seq<Part>, x: Part, all: seq<Part>, p: string)
    ensures multiset(Block(p, parts + [x], all)) == multiset(Block(p, parts, all))
            + if x.prefix == p then multiset{Renamed(x, all)} else multiset{}
  {
    var w := Width(all, p);
    OneMore(parts, x, p);
    NamesSorted(p, Nums(parts, p), w);
    if x.prefix == p {
      NamesSorted(p, Nums(parts + [x], p), w);
      NamesSnoc(p, Nums(parts, p), x.num, w);
    } else {
      assert Nums(parts + [x], p) == Nums(parts, p);
    }
  }

  lemma BlocksFirst(ps: seq<string>, parts: seq<Part>, all: seq<Part>)
    requires ps != []
    ensures multiset(Blocks(ps, parts, all)) == multiset(Block(ps[0], parts, all)) + multiset(Blocks(ps[1..], parts, all))
  {
  }

  lemma {:induction false} BlocksBump(ps: seq<string>, parts: seq<Part>, x: Part, all: seq<Part>)
    requires forall i, j | 0 <= i < j < |ps| :: ps[i] != ps[j]
    ensures multiset(Blocks(ps, parts + [x], all))
         == multiset(Blocks(ps, parts, all)) + if x.prefix in ps then multiset{Renamed(x, all)} else multiset{}
    decreases |ps|
  {
    if ps != [] {
      BlockBump(parts, x, all, ps[0]);
      BlocksBump(ps[1..], parts, x, all);
      BlocksFirst(ps, parts, all);
      BlocksFirst(ps, parts + [x], all);
      assert x.prefix in ps <==> x.prefix == ps[0] || x.prefix in ps[1..];
    }
  }

  lemma {:induction false} BlocksSnoc(ps: seq<string>, p: string, parts: seq<Part>, all: seq<Part>)
    ensures Blocks(ps + [p], parts, all) == Blocks(ps, parts, all) + Block(p, parts, all)
    decreases |ps|
  {
    var last := Block(p, parts, all);
    if ps == [] {
      assert ([] + [p])[1..] == [] && last + [] == [] + last;
    } else {
      BlocksSnoc(ps[1..], p, parts, all);
      assert (ps + [p])[1..] == ps[1..] + [p] && (ps + [p])[0] == ps[0];
      Regroup(Block(ps[0], parts, all), Blocks(ps[1..], parts, all), last);
    }
  }

  lemma {:induction false} BlocksPermute(parts: seq<Part>, all: seq<Part>)
    ensures multiset(Blocks(Prefixes(parts), parts, all)) == multiset(RenamedAll(parts, all))
    decreases |parts|
  {
    if parts != [] {
      var front, x := parts[..|parts| - 1], parts[|parts| - 1];
      assert parts == front + [x];
      BlocksPermute(front, all);
      OneMore(front, x, x.prefix);
      PrefixesDistinct(front);
      BlocksBump(Prefixes(front), front, x, all);
      assert RenamedAll(parts, all) == RenamedAll(front, all) + [Renamed(x, all)];
      if x.prefix !in Prefixes(front) {
        BlocksSnoc(Prefixes(front), x.prefix, parts, all);
        NewBlock(front, x, all);
      }
    }
  }

  lemma NewBlock(front: seq<Part>, x: Part, all: seq<Part>)
    requires x.prefix !in Prefixes(front)
    ensures Block(x.prefix, front + [x], all) == [Renamed(x, all)]
  {
    NumsNone(front, x.prefix);
    OneMore(front, x, x.prefix);
    assert Nums(front + [x], x.prefix) == [x.num] && Sorted([x.num], NatLe) == [x.num];
  }

  /** The canonical form holds every name once, re-printed. */
  lemma CanonicalPermutes(names: seq<string>)
    requires Extractable(names)
    ensures var parts := PartsOf(names); multiset(Canonical(names)) == multiset(RenamedAll(parts, parts))
  {
    var parts := PartsOf(names);
    CanonicalIsBlocks(GroupsOf(parts), Prefixes(parts), parts);
    BlocksPermute(parts, parts);
  }

  // ----- Widths -----

  /** All numerals after the same prefix have the same number of digits. */
  ghost predicate OneWidthPerPrefix(names: seq<string>)
    requires Extractable(names)
  {
    var parts := PartsOf(names);
    forall i, j | 0 <= i < |parts| && 0 <= j < |parts| && parts[i].prefix == parts[j].prefix :: parts[i].width == parts[j].width
  }

  lemma {:induction false} WidthIsMax(parts: seq<Part>, p: string)
    ensures forall i | 0 <= i < |parts| && parts[i].prefix == p :: parts[i].width <= Width(parts, p)
    ensures Width(parts, p) > 0 ==> exists i | 0 <= i < |parts| :: parts[i].prefix == p && parts[i].width == Width(parts, p)
    decreases |parts|
  {
    if parts != [] {
      var front, x := parts[..|parts| - 1], parts[|parts| - 1];
      WidthIsMax(front, p);
      if Width(front, p) > 0 {
        var i :| 0 <= i < |front| && front[i].prefix == p && front[i].width == Width(front, p);
        assert parts[i].prefix == p && parts[i].width == Width(front, p);
      }
      assert parts[|parts| - 1] == x;
      assert forall i | 0 <= i < |front| :: parts[i] == front[i];
    }
  }

  lemma NameDigits(name: string, x: Part)
    requires IsName(name, x)
    ensures name[|x.prefix| - 1] == '-' && forall i | |x.prefix| <= i < |name| :: IsDigit(name[i])
  {
    assert name[|x.prefix| - 1] == name[..|x.prefix|][|x.prefix| - 1];
    forall i | |x.prefix| <= i < |name| ensures IsDigit(name[i]) {
      assert name[i] == name[|x.prefix|..][i - |x.prefix|];
    }
  }

  /** Two names that are equal have the same prefix and the same width. */
  lemma SamePrefix(a: string, x: Part, b: string, y: Part)
    requires IsName(a, x) && IsName(b, y) && a == b
    ensures x.prefix == y.prefix && x.width == y.width
  {
    NameDigits(a, x);
    NameDigits(b, y);
    assert |x.prefix| == |y.prefix|;
  }

  lemma RenamedIsName(x: Part, all: seq<Part>)
    requires Clean(x.prefix) && x.prefix[|x.prefix| - 1] == '-' && Fits(x.num, Width(all, x.prefix))
    ensures IsName(Renamed(x, all), Part(x.prefix, x.num, Width(all, x.prefix)))
  {
    var w := Width(all, x.prefix);
    ValPad(x.num, w);
    assert Renamed(x, all)[|x.prefix|..] == Pad(x.num, w);
  }

  lemma PartsFit(names: seq<string>, i: nat)
    requires AllPlain(names) && i < |names|
    ensures Extractable(names) && Fits(PartsOf(names)[i].num, Width(PartsOf(names), PartsOf(names)[i].prefix))
  {
    NamesAreGood(names);
    WidthIsMax(PartsOf(names), PartsOf(names)[i].prefix);
  }

  lemma KeepsName(names: seq<string>, i: nat)
    requires AllPlain(names) && Extractable(names) && OneWidthPerPrefix(names) && i < |names|
    ensures Renamed(PartsOf(names)[i], PartsOf(names)) == names[i]
  {
    var parts := PartsOf(names);
    PlainNames(names);
    var x := parts[i];
    assert IsName(names[i], x);
    WidthIsMax(parts, x.prefix);
    assert Width(parts, x.prefix) == x.width;
    NameOfPart(names[i], x);
  }

  lemma NameOfPart(name: string, x: Part)
    requires IsName(name, x)
    ensures x.prefix + Pad(x.num, x.width) == name
  {
    PadVal(name[|x.prefix|..]);
    assert name == name[..|x.prefix|] + name[|x.prefix|..];
  }

  lemma KeepsUniform(names: seq<string>)
    requires AllPlain(names) && Extractable(names) && OneWidthPerPrefix(names)
    ensures RenamedAll(PartsOf(names), PartsOf(names)) == names
  {
    forall i | 0 <= i < |names| ensures RenamedAll(PartsOf(names), PartsOf(names))[i] == names[i] {
      KeepsName(names, i);
    }
  }

  /** The name is made of the part, and the part fits the width of its prefix. */
  ghost predicate NameFits(name: string, x: Part, all: seq<Part>) {
    IsName(name, x) && Fits(x.num, Width(all, x.prefix))
  }

  lemma NoneRenamedTo(names: seq<string>, parts: seq<Part>, i: nat)
    requires |names| == |parts| && i < |names| && parts[i].width < Width(parts, parts[i].prefix)
    requires forall k | 0 <= k < |parts| :: NameFits(names[k], parts[k], parts)
    ensures names[i] !in RenamedAll(parts, parts)
  {
    assert NameFits(names[i], parts[i], parts);
    forall k | 0 <= k < |parts| ensures RenamedAll(parts, parts)[k] != names[i] {
      assert NameFits(names[k], parts[k], parts);
      NotRenamedTo(names[i], parts[i], parts, parts[k]);
    }
  }

  lemma LosesShort(names: seq<string>, i: nat, j: nat)
    requires AllPlain(names) && Extractable(names) && i < |names| && j < |names|
    requires PartsOf(names)[i].prefix == PartsOf(names)[j].prefix && PartsOf(names)[i].width < PartsOf(names)[j].width
    ensures names[i] !in RenamedAll(PartsOf(names), PartsOf(names))
  {
    var parts := PartsOf(names);
    PlainNames(names);
    WidthIsMax(parts, parts[i].prefix);
    forall k | 0 <= k < |parts| ensures NameFits(names[k], parts[k], parts) {
      PartsFit(names, k);
      assert IsName(names[k], parts[k]);
    }
    NoneRenamedTo(names, parts, i);
  }

  /** A name that is too short for its prefix does not come back. */
  lemma NotRenamedTo(name: string, x: Part, all: seq<Part>, y: Part)
    requires IsName(name, x) && x.width < Width(all, x.prefix)
    requires Clean(y.prefix) && y.prefix[|y.prefix| - 1] == '-' && Fits(y.num, Width(all, y.prefix))
    ensures Renamed(y, all) != name
  {
    RenamedIsName(y, all);
    if Renamed(y, all) == name {
      SamePrefix(name, x, Renamed(y, all), Part(y.prefix, y.num, Width(all, y.prefix)));
    }
  }

  /** Formatting and parsing again gives back the names, as many times each, leading zeroes included,
      if and only if each prefix comes with one width. */
  lemma RoundTripIffOneWidth(names: seq<string>)
    requires AllPlain(names)
    ensures Extractable(names) && Parsed(Formatted(names)) == Ok(Canonical(names))
    ensures multiset(Canonical(names)) == multiset(names) <==> OneWidthPerPrefix(names)
  {
    ParseFormat(names);
    CanonicalPermutes(names);
    var parts := PartsOf(names);
    if OneWidthPerPrefix(names) {
      KeepsUniform(names);
    } else {
      var i, j :| 0 <= i < |parts| && 0 <= j < |parts| && parts[i].prefix == parts[j].prefix && parts[i].width != parts[j].width;
      var short, long := if parts[i].width < parts[j].width then i else j, if parts[i].width < parts[j].width then j else i;
      LosesShort(names, short, long);
      assert names[short] in multiset(names);
    }
  }

  /** `format_node_list`: a dict from prefixes to numbers, then one bracketed item per prefix; what it
      returns is read back as the canonical list. */
  method FormatNodeList(names: seq<string>) returns (r: Result<string>)
    ensures Extractable(names) <==> r.Ok?
    ensures r.Ok? ==> r.value == Formatted(names)
    ensures AllPlain(names) ==> r.Ok? && Parsed(r.value) == Ok(Canonical(names))
    ensures AllPlain(names) ==> (multiset(Parsed(r.value).value) == multiset(names) <==> OneWidthPerPrefix(names))
  {
    if AllPlain(names) { RoundTripIffOneWidth(names); }
    var groups, parts := GroupNames(names);
    if groups.Raised? { return Raised(groups.message); }
    AllExtracted(names, parts);
    var formatted := FormatGroups(groups.value);
    return Ok(Join(formatted, ", "));
  }
}
