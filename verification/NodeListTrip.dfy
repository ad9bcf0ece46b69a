/** What the node-list notation preserves: parsing what was printed, exactly when nothing is lost,
    and why the printed ranges are the shortest. */
module NodeListTrip {
  import opened Basics
  import opened Strings
  import opened Sorting
  import opened NodeList

  // ----- The names the notation stands for -----

  function Names(prefix: string, nums: seq<nat>, width: nat): (names: seq<string>)
    ensures |names| == |nums| && forall i | 0 <= i < |nums| :: names[i] == prefix + Pad(nums[i], width)
  {
    seq(|nums|, i requires 0 <= i < |nums| => prefix + Pad(nums[i], width))
  }

  function GroupNamesOf(groups: seq<Group>): seq<string> {
    if groups == [] then []
    else Names(groups[0].prefix, Sorted(groups[0].nums, NatLe), groups[0].padding) + GroupNamesOf(groups[1..])
  }

  /** Prefixes in order of first appearance, numbers ascending, all padded to the widest. */
  function Canonical(names: seq<string>): seq<string>
    requires Extractable(names)
  {
    GroupNamesOf(GroupsOf(PartsOf(names)))
  }

  // ----- One range -----

  predicate Fits(n: nat, width: nat) {
    |Dec(n)| <= width
  }

  lemma PadFits(n: nat, width: nat)
    requires Fits(n, width)
    ensures |Pad(n, width)| == width
  {
  }

  lemma DigitsClean(s: string, c: char)
    requires AllDigits(s) && !IsDigit(c)
    ensures c !in s
  {
  }

  lemma ExpandOne(header: string, n: nat, width: nat)
    ensures Expand(header, n, n, width) == [header + Pad(n, width)]
  {
    assert Expand(header, n + 1, n, width) == [];
  }

  lemma SpanTrip(header: string, r: Span, width: nat)
    requires r.lo <= r.hi && Fits(r.hi, width)
    ensures ParseRange(header, PrintSpan(r, width)) == Ok(Expand(header, r.lo, r.hi, width))
  {
    var a, b := Pad(r.lo, width), Pad(r.hi, width);
    DigitsClean(a, '-');
    DigitsClean(b, '-');
    if r.lo != r.hi {
      SplitFirst(a, '-', b);
      SplitNone(b, '-');
      assert a + "-" + b == a + ['-'] + b;
      assert Split(a + "-" + b, '-') == [a, b];
      assert (a + "-" + b)[|a|] == '-';
      PyIntDigits(a);
      PyIntDigits(b);
      ValPad(r.lo, width);
      ValPad(r.hi, width);
      PadFits(r.hi, width);
    } else {
      ExpandOne(header, r.lo, width);
    }
  }

  /** Spans are proper and their numbers fit. */
  predicate Printable(runs: seq<Span>, width: nat) {
    forall i | 0 <= i < |runs| :: runs[i].lo <= runs[i].hi && Fits(runs[i].hi, width)
  }

  function ExpandAll(header: string, runs: seq<Span>, width: nat): seq<string> {
    if runs == [] then [] else Expand(header, runs[0].lo, runs[0].hi, width) + ExpandAll(header, runs[1..], width)
  }

  lemma {:induction false} SpansTrip(header: string, runs: seq<Span>, width: nat)
    requires Printable(runs, width)
    ensures ParseRanges(header, PrintSpans(runs, width)) == Ok(ExpandAll(header, runs, width))
    decreases |runs|
  {
    if runs != [] {
      SpanTrip(header, runs[0], width);
      SpansTrip(header, runs[1..], width);
      assert PrintSpans(runs, width)[1..] == PrintSpans(runs[1..], width);
    }
  }

  // ----- Runs -----

  lemma {:induction false} ExpandSnoc(header: string, lo: nat, hi: nat, width: nat)
    requires lo <= hi + 1
    ensures Expand(header, lo, hi + 1, width) == Expand(header, lo, hi, width) + [header + Pad(hi + 1, width)]
    decreases hi + 1 - lo
  {
    if lo <= hi {
      ExpandSnoc(header, lo + 1, hi, width);
    } else {
      assert Expand(header, lo + 1, hi + 1, width) == [];
      assert [header + Pad(lo, width)] + [] == [] + [header + Pad(lo, width)];
    }
  }

  lemma NamesFirst(header: string, nums: seq<nat>, width: nat)
    requires nums != []
    ensures Names(header, nums, width) == [header + Pad(nums[0], width)] + Names(header, nums[1..], width)
  {
  }

  lemma ExpandAllFirst(header: string, s: Span, tail: seq<Span>, width: nat)
    ensures ExpandAll(header, [s] + tail, width) == Expand(header, s.lo, s.hi, width) + ExpandAll(header, tail, width)
  {
    assert ([s] + tail)[1..] == tail;
  }

  lemma Regroup<T>(a: seq<T>, b: seq<T>, c: seq<T>)
    ensures (a + b) + c == a + (b + c)
  {
  }

  lemma {:induction false} RunsExpand(header: string, lo: nat, hi: nat, rest: seq<nat>, width: nat)
    requires lo <= hi
    ensures ExpandAll(header, RunsFrom(lo, hi, rest), width) == Expand(header, lo, hi, width) + Names(header, rest, width)
    decreases |rest|
  {
    var first := Expand(header, lo, hi, width);
    if rest == [] {
      ExpandAllFirst(header, Span(lo, hi), [], width);
      assert Names(header, [], width) == [];
    } else {
      var name, others := [header + Pad(rest[0], width)], Names(header, rest[1..], width);
      NamesFirst(header, rest, width);
      if rest[0] == hi + 1 {
        RunsExpand(header, lo, rest[0], rest[1..], width);
        ExpandSnoc(header, lo, hi, width);
        Regroup(first, name, others);
      } else {
        RunsExpand(header, rest[0], rest[0], rest[1..], width);
        ExpandOne(header, rest[0], width);
        ExpandAllFirst(header, Span(lo, hi), RunsFrom(rest[0], rest[0], rest[1..]), width);
      }
    }
  }

  lemma {:induction false} RunsPrintable(lo: nat, hi: nat, rest: seq<nat>, width: nat)
    requires lo <= hi && Fits(hi, width) && forall i | 0 <= i < |rest| :: Fits(rest[i], width)
    ensures Printable(RunsFrom(lo, hi, rest), width)
    decreases |rest|
  {
    if rest != [] {
      if rest[0] == hi + 1 {
        RunsPrintable(lo, rest[0], rest[1..], width);
      } else {
        RunsPrintable(rest[0], rest[0], rest[1..], width);
      }
    }
  }

  lemma RunsNames(header: string, nums: seq<nat>, width: nat)
    requires nums != []
    ensures ExpandAll(header, Runs(nums), width) == Names(header, nums, width)
  {
    RunsExpand(header, nums[0], nums[0], nums[1..], width);
    ExpandOne(header, nums[0], width);
  }

  /** The printed ranges of a list of numbers read back as its names. */
  lemma NumsTrip(header: string, nums: seq<nat>, width: nat)
    requires nums != [] && forall i | 0 <= i < |nums| :: Fits(nums[i], width)
    ensures ParseRanges(header, PrintSpans(Runs(nums), width)) == Ok(Names(header, nums, width))
  {
    RunsPrintable(nums[0], nums[0], nums[1..], width);
    SpansTrip(header, Runs(nums), width);
    RunsNames(header, nums, width);
  }

  // ----- One bracketed item -----

  /** Free of everything the notation gives a meaning to. */
  predicate Clean(prefix: string) {
    prefix != [] && forall i | 0 <= i < |prefix| :: prefix[i] != '[' && prefix[i] != ']' && prefix[i] != ',' && !IsSpace(prefix[i])
  }

  /** A prefix with numbers that fit its padding. */
  predicate GoodGroup(g: Group) {
    Clean(g.prefix) && g.nums != [] && forall i | 0 <= i < |g.nums| :: Fits(g.nums[i], g.padding)
  }

  lemma SpanClean(r: Span, width: nat, c: char)
    requires !IsDigit(c) && c != '-'
    ensures c !in PrintSpan(r, width)
  {
    DigitsClean(Pad(r.lo, width), c);
    DigitsClean(Pad(r.hi, width), c);
  }

  lemma {:induction false} JoinClean(parts: seq<string>, sep: string, c: char)
    requires c !in sep && forall i | 0 <= i < |parts| :: c !in parts[i]
    ensures c !in Join(parts, sep)
    decreases |parts|
  {
    if |parts| > 1 {
      JoinClean(parts[1..], sep, c);
    }
  }

  lemma {:induction false} RunsNotEmpty(lo: nat, hi: nat, rest: seq<nat>)
    ensures RunsFrom(lo, hi, rest) != []
    decreases |rest|
  {
    if rest != [] && rest[0] == hi + 1 {
      RunsNotEmpty(lo, rest[0], rest[1..]);
    }
  }

  lemma SortedFits(nums: seq<nat>, width: nat)
    requires nums != [] && forall i | 0 <= i < |nums| :: Fits(nums[i], width)
    ensures var s := Sorted(nums, NatLe); s != [] && |s| == |nums| && forall i | 0 <= i < |s| :: Fits(s[i], width)
  {
    var s := Sorted(nums, NatLe);
    NatLeTotal();
    SortedKeeps(nums, NatLe);
    forall i | 0 <= i < |s| ensures Fits(s[i], width) {
      assert s[i] in multiset(nums);
    }
  }

  /** The printed ranges of a group. */
  function RangesOf(g: Group): seq<string> {
    PrintSpans(Runs(Sorted(g.nums, NatLe)), g.padding)
  }

  lemma RangesClean(g: Group, c: char)
    requires !IsDigit(c) && c != '-'
    ensures forall i | 0 <= i < |RangesOf(g)| :: c !in RangesOf(g)[i]
    ensures c != ',' ==> c !in Join(RangesOf(g), ",")
  {
    forall i | 0 <= i < |RangesOf(g)| ensures c !in RangesOf(g)[i] {
      SpanClean(Runs(Sorted(g.nums, NatLe))[i], g.padding, c);
    }
    if c != ',' {
      JoinClean(RangesOf(g), ",", c);
    }
  }

  /** The parts of a printed item. */
  lemma GroupShape(g: Group)
    requires GoodGroup(g)
    ensures RangesOf(g) != []
    ensures var body := Join(RangesOf(g), ","); PrintGroup(g) == g.prefix + "[" + body + "]" && '[' !in body && ']' !in body
    ensures forall i | 0 <= i < |RangesOf(g)| :: ',' !in RangesOf(g)[i]
  {
    var nums := Sorted(g.nums, NatLe);
    SortedFits(g.nums, g.padding);
    RunsNotEmpty(nums[0], nums[0], nums[1..]);
    RangesClean(g, '[');
    RangesClean(g, ']');
    RangesClean(g, ',');
    var body := Join(RangesOf(g), ",");
    assert g.prefix + ("[" + body + "]") == g.prefix + "[" + body + "]";
  }

  lemma GroupTrip(g: Group)
    requires GoodGroup(g)
    ensures ParseComponent(PrintGroup(g)) == Ok(Names(g.prefix, Sorted(g.nums, NatLe), g.padding))
  {
    GroupShape(g);
    SortedFits(g.nums, g.padding);
    var ranges := RangesOf(g);
    var body, text := Join(ranges, ","), PrintGroup(g);
    assert '[' !in g.prefix;
    assert text == g.prefix + ['['] + (body + "]");
    assert text[|g.prefix|] == '[';
    SplitFirst(g.prefix, '[', body + "]");
    SplitNone(body + "]", '[');
    assert Split(text, '[') == [g.prefix, body + "]"];
    WithoutNone(body, ']', "]");
    assert Without("]", ']') == [];
    assert Without(body + "]", ']') == body;
    SplitJoin(ranges, ',');
    NumsTrip(g.prefix, Sorted(g.nums, NatLe), g.padding);
  }

  // ----- The whole list -----

  /** No character of `a` is a separator when `tail` follows. */
  predicate NoSeparator(a: string, tail: string) {
    forall i | 0 <= i < |a| && a[i] == ',' :: ClosesFirst(a[i + 1..] + tail)
  }

  lemma {:induction false} SplitTopSkip(a: string, tail: string)
    requires NoSeparator(a, tail)
    ensures SplitTop(a + tail) == [a + SplitTop(tail)[0]] + SplitTop(tail)[1..]
    decreases |a|
  {
    var parts := SplitTop(tail);
    if a == [] {
      assert a + tail == tail && a + parts[0] == parts[0];
    } else {
      assert (a + tail)[1..] == a[1..] + tail && (a + tail)[0] == a[0];
      assert a[0] == ',' ==> ClosesFirst(a[0 + 1..] + tail);
      forall i | 0 <= i < |a[1..]| && a[1..][i] == ',' ensures ClosesFirst(a[1..][i + 1..] + tail) {
        assert a[1..][i + 1..] == a[(i + 1) + 1..] && a[i + 1] == ',';
      }
      SplitTopSkip(a[1..], tail);
      assert [a[0]] + (a[1..] + parts[0]) == a + parts[0];
    }
  }

  lemma {:induction false} ClosesAfter(body: string, tail: string)
    requires '[' !in body && ']' !in body
    ensures ClosesFirst(body + "]" + tail)
    decreases |body|
  {
    if body == [] {
      assert body + "]" + tail == "]" + tail;
    } else {
      ClosesAfter(body[1..], tail);
      assert (body + "]" + tail)[1..] == body[1..] + "]" + tail;
    }
  }

  lemma {:induction false} OpensAfter(prefix: string, tail: string)
    requires '[' !in prefix && ']' !in prefix
    ensures !ClosesFirst(prefix + "[" + tail)
    decreases |prefix|
  {
    if prefix == [] {
      assert prefix + "[" + tail == "[" + tail;
    } else {
      OpensAfter(prefix[1..], tail);
      assert (prefix + "[" + tail)[1..] == prefix[1..] + "[" + tail;
    }
  }

  /** The commas of a printed item are all inside its brackets. */
  lemma GroupNoSeparator(g: Group, tail: string)
    requires GoodGroup(g)
    ensures NoSeparator(PrintGroup(g), tail)
  {
    GroupShape(g);
    BracketsNoSeparator(g.prefix, Join(RangesOf(g), ","), tail);
  }

  lemma BracketsNoSeparator(prefix: string, body: string, tail: string)
    requires ',' !in prefix && '[' !in body && ']' !in body
    ensures NoSeparator(prefix + "[" + body + "]", tail)
  {
    var a := prefix + "[" + body + "]";
    assert forall k | 0 <= k < |prefix| :: a[k] == prefix[k];
    forall i | 0 <= i < |a| && a[i] == ',' ensures ClosesFirst(a[i + 1..] + tail) {
      var at := |prefix| + 1;
      assert at <= i < at + |body|;
      assert a[i + 1..] == body[i + 1 - at..] + "]";
      ClosesAfter(body[i + 1 - at..], tail);
      assert body[i + 1 - at..] + "]" + tail == a[i + 1..] + tail;
    }
  }

  ghost predicate GoodGroups(groups: seq<Group>) {
    forall i | 0 <= i < |groups| :: GoodGroup(groups[i])
  }

  function PrintedText(groups: seq<Group>): string {
    Join(PrintGroups(groups), ", ")
  }

  /** A printed list is its first item and the rest. */
  lemma TextShape(groups: seq<Group>)
    requires groups != []
    ensures PrintedText(groups) == PrintGroup(groups[0]) + if |groups| == 1 then "" else ", " + PrintedText(groups[1..])
  {
    assert PrintGroups(groups)[1..] == PrintGroups(groups[1..]);
  }

  lemma OpensText(prefix: string, tail: string)
    requires Clean(prefix)
    ensures var text := prefix + "[" + tail; !IsSpace(text[0]) && !ClosesFirst(text) && !ClosesFirst(" " + text)
  {
    OpensAfter(prefix, tail);
    OpensAfter(" " + prefix, tail);
    assert " " + prefix + "[" + tail == " " + (prefix + "[" + tail);
  }

  /** What follows the first opening bracket. */
  function AfterBracket(groups: seq<Group>): string
    requires groups != []
  {
    Join(RangesOf(groups[0]), ",") + "]" + if |groups| == 1 then "" else ", " + PrintedText(groups[1..])
  }

  lemma TextPrefix(groups: seq<Group>)
    requires groups != [] && GoodGroup(groups[0])
    ensures PrintedText(groups) == groups[0].prefix + "[" + AfterBracket(groups)
  {
    GroupShape(groups[0]);
    TextShape(groups);
  }

  /** A printed list starts with a prefix, so what precedes it is a separator. */
  lemma PrintedOpens(groups: seq<Group>)
    requires groups != [] && GoodGroups(groups)
    ensures var text := PrintedText(groups);
            text != [] && !IsSpace(text[0]) && !ClosesFirst(text) && !ClosesFirst(" " + text)
  {
    TextPrefix(groups);
    OpensText(groups[0].prefix, AfterBracket(groups));
  }

  lemma {:induction false} PrintedCloses(groups: seq<Group>)
    requires groups != [] && GoodGroups(groups)
    ensures var text := PrintedText(groups); text != [] && text[|text| - 1] == ']'
    decreases |groups|
  {
    GroupShape(groups[0]);
    TextShape(groups);
    if |groups| > 1 {
      PrintedCloses(groups[1..]);
    }
  }

  lemma SplitOne(g: Group, rest: string)
    requires GoodGroup(g) && rest != [] && !IsSpace(rest[0]) && !ClosesFirst(" " + rest)
    ensures SplitTop(PrintGroup(g) + (", " + rest)) == [PrintGroup(g)] + SplitTop(rest)
  {
    var tail := ", " + rest;
    assert tail[1..] == " " + rest && (" " + rest)[1..] == rest;
    assert LStrip(" " + rest) == LStrip(rest) == rest;
    assert SplitTop(tail) == [[]] + SplitTop(rest);
    GroupNoSeparator(g, tail);
    SplitTopSkip(PrintGroup(g), tail);
    assert PrintGroup(g) + [] == PrintGroup(g);
  }

  lemma {:induction false} SplitGroups(groups: seq<Group>)
    requires groups != [] && GoodGroups(groups)
    ensures SplitTop(PrintedText(groups)) == PrintGroups(groups)
    decreases |groups|
  {
    TextShape(groups);
    if |groups| == 1 {
      GroupNoSeparator(groups[0], "");
      SplitTopSkip(PrintGroup(groups[0]), "");
      assert PrintGroup(groups[0]) + "" == PrintGroup(groups[0]);
    } else {
      SplitGroups(groups[1..]);
      PrintedOpens(groups[1..]);
      SplitOne(groups[0], PrintedText(groups[1..]));
    }
  }

  lemma {:induction false} ComponentsTrip(groups: seq<Group>)
    requires GoodGroups(groups)
    ensures ParseComponents(PrintGroups(groups)) == Ok(GroupNamesOf(groups))
    decreases |groups|
  {
    if groups != [] {
      GroupTrip(groups[0]);
      ComponentsTrip(groups[1..]);
      assert PrintGroups(groups)[1..] == PrintGroups(groups[1..]);
    }
  }

  lemma GroupsTrip(groups: seq<Group>)
    requires GoodGroups(groups)
    ensures Parsed(PrintedText(groups)) == Ok(GroupNamesOf(groups))
  {
    if groups != [] {
      PrintedOpens(groups);
      PrintedCloses(groups);
      SplitGroups(groups);
      ComponentsTrip(groups);
      StripNone(PrintedText(groups));
    }
  }

  // ----- Names and their parts -----

  lemma {:induction false} TailDigitsStop(s: string)
    ensures var n := TailDigits(s); n < |s| ==> !IsDigit(s[|s| - n - 1])
    decreases |s|
  {
    if s != [] && IsDigit(s[|s| - 1]) {
      TailDigitsStop(s[..|s| - 1]);
    }
  }

  /** A name made of a clean prefix that ends in a dash, and a numeral. */
  ghost predicate Plain(name: string) {
    exists k :: SplitsAt(name, k)
  }

  predicate SplitsAt(name: string, k: nat) {
    0 < k < |name| && Clean(name[..k]) && name[k - 1] == '-' && AllDigits(name[k..])
  }

  lemma {:induction false} TailDigitsAt(s: string, k: nat)
    requires k <= |s| && AllDigits(s[k..]) && (k == 0 || !IsDigit(s[k - 1]))
    ensures TailDigits(s) == |s| - k
    decreases |s|
  {
    if k < |s| {
      assert s[|s| - 1] == s[k..][|s| - 1 - k];
      assert s[..|s| - 1][k..] == s[k..][..|s| - 1 - k];
      TailDigitsAt(s[..|s| - 1], k);
    }
  }

  /** What `extract_parts` finds in a plain name. */
  lemma PlainParts(name: string, k: nat)
    requires SplitsAt(name, k)
    ensures ExtractParts(name) == Some(Part(name[..k], Val(name[k..]), |name| - k))
  {
    TailDigitsAt(name, k);
    assert name[|name| - 1] == name[k..][|name| - 1 - k];
    forall i | 0 <= i < |name| ensures name[i] != '\n' {
      if i < k {
        assert !IsSpace(name[..k][i]);
      } else {
        assert IsDigit(name[k..][i - k]);
      }
    }
  }

  ghost predicate AllPlain(names: seq<string>) {
    forall i | 0 <= i < |names| :: Plain(names[i])
  }

  /** Name `i` is its prefix and a numeral of its width; the prefix is clean. */
  ghost predicate IsName(name: string, x: Part) {
    && Clean(x.prefix) && x.prefix[|x.prefix| - 1] == '-' && x.width > 0
    && |name| == |x.prefix| + x.width && name[..|x.prefix|] == x.prefix
    && AllDigits(name[|x.prefix|..]) && x.num == Val(name[|x.prefix|..])
  }

  lemma PlainNames(names: seq<string>)
    requires AllPlain(names)
    ensures Extractable(names)
    ensures forall i | 0 <= i < |names| :: IsName(names[i], PartsOf(names)[i])
  {
    forall i | 0 <= i < |names| ensures ExtractParts(names[i]).Some? && IsName(names[i], ExtractParts(names[i]).value) {
      var k :| SplitsAt(names[i], k);
      PlainParts(names[i], k);
    }
  }

  // ----- The dict holds good groups -----

  ghost predicate AllNames(parts: seq<Part>) {
    forall i | 0 <= i < |parts| :: Clean(parts[i].prefix) && parts[i].width > 0 && Fits(parts[i].num, parts[i].width)
  }

  lemma {:induction false} PrefixFromPart(parts: seq<Part>, p: string)
    requires p in Prefixes(parts)
    ensures exists i | 0 <= i < |parts| :: parts[i].prefix == p
    decreases |parts|
  {
    var front := parts[..|parts| - 1];
    if p in Prefixes(front) {
      PrefixFromPart(front, p);
      var i :| 0 <= i < |front| && front[i].prefix == p;
      assert parts[i].prefix == p;
    } else {
      assert parts[|parts| - 1].prefix == p;
    }
  }

  lemma {:induction false} NumsFit(parts: seq<Part>, p: string)
    requires AllNames(parts)
    ensures forall i | 0 <= i < |Nums(parts, p)| :: Fits(Nums(parts, p)[i], Width(parts, p))
    ensures p in Prefixes(parts) ==> Nums(parts, p) != []
    decreases |parts|
  {
    if parts != [] {
      NumsFit(parts[..|parts| - 1], p);
    }
  }

  lemma GroupsGood(parts: seq<Part>)
    requires AllNames(parts)
    ensures GoodGroups(GroupsOf(parts))
  {
    var groups := GroupsOf(parts);
    forall i | 0 <= i < |groups| ensures GoodGroup(groups[i]) {
      var p := Prefixes(parts)[i];
      NumsFit(parts, p);
      PrefixFromPart(parts, p);
    }
  }

  lemma NamesAreGood(names: seq<string>)
    requires AllPlain(names)
    ensures Extractable(names) && AllNames(PartsOf(names))
  {
    PlainNames(names);
    forall i | 0 <= i < |names| ensures Fits(PartsOf(names)[i].num, PartsOf(names)[i].width) {
      assert IsName(names[i], PartsOf(names)[i]);
      PadVal(names[i][|PartsOf(names)[i].prefix|..]);
    }
  }

  /** Parsing a formatted list gives its canonical form. */
  lemma ParseFormat(names: seq<string>)
    requires AllPlain(names)
    ensures Extractable(names) && Parsed(Formatted(names)) == Ok(Canonical(names))
  {
    NamesAreGood(names);
    GroupsGood(PartsOf(names));
    GroupsTrip(GroupsOf(PartsOf(names)));
  }
}
