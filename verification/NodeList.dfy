/** The compact notation for node lists: `parse_node_list` and `format_node_list`. */
module NodeList {
  import opened Basics
  import opened Strings
  import opened Sorting

  // ----- Parsing -----

  /** The next bracket is a closing one: the text is inside brackets. */
  predicate ClosesFirst(s: string) {
    s != [] && s[0] != '[' && (s[0] == ']' || ClosesFirst(s[1..]))
  }

  /** The regex split: at each comma outside brackets, together with the whitespace after it. */
  function SplitTop(s: string): (parts: seq<string>)
    ensures parts != []
    decreases |s|
  {
    if s == [] then [[]]
    else if s[0] == ',' && !ClosesFirst(s[1..]) then [[]] + SplitTop(LStrip(s[1..]))
    else
      var rest := SplitTop(s[1..]);
      [[s[0]] + rest[0]] + rest[1..]
  }

  /** The names `header`lo .. `header`hi with zero padding. */
  function Expand(header: string, lo: nat, hi: nat, width: nat): (names: seq<string>)
    ensures |names| == if lo <= hi then hi - lo + 1 else 0
    decreases hi + 1 - lo
  {
    if lo > hi then [] else [header + Pad(lo, width)] + Expand(header, lo + 1, hi, width)
  }

  lemma StripKeeps(s: string, c: char)
    requires c !in s
    ensures c !in LStrip(s) && c !in RStrip(s)
  {
  }

  lemma NoSignNoMinus(s: string)
    requires '-' !in s
    ensures PyInt(s).Some? ==> PyInt(s).value >= 0
  {
    StripKeeps(s, '-');
    StripKeeps(LStrip(s), '-');
  }

  /** One item between the brackets. */
  function ParseRange(header: string, r: string): Result<seq<string>> {
    if '-' in r then
      var ends := Split(r, '-');
      if |ends| != 2 then Raised("not enough or too many values to unpack")
      else
        var lo, hi := PyInt(ends[0]), PyInt(ends[1]);
        if lo == None || hi == None then Raised("invalid literal for int")
        else
          NoSignNoMinus(ends[0]);
          NoSignNoMinus(ends[1]);
          Ok(Expand(header, lo.value, hi.value, |ends[1]|))
    else Ok([header + r])
  }

  function Append(a: Result<seq<string>>, b: Result<seq<string>>): Result<seq<string>> {
    if a.Raised? then a else if b.Raised? then b else Ok(a.value + b.value)
  }

  lemma AppendLaws(a: Result<seq<string>>, b: Result<seq<string>>, c: Result<seq<string>>)
    ensures Append(Ok([]), a) == a && Append(a, Ok([])) == a
    ensures Append(a, Append(b, c)) == Append(Append(a, b), c)
  {
    if a.Ok? {
      assert [] + a.value == a.value == a.value + [];
      if b.Ok? && c.Ok? {
        assert a.value + (b.value + c.value) == a.value + b.value + c.value;
      }
    }
  }

  function ParseRanges(header: string, ranges: seq<string>): Result<seq<string>> {
    if ranges == [] then Ok([]) else Append(ParseRange(header, ranges[0]), ParseRanges(header, ranges[1..]))
  }

  function ParseComponent(component: string): Result<seq<string>> {
    if '[' !in component then Ok([component])
    else
      var parts := Split(component, '[');
      if |parts| != 2 then Raised("too many values to unpack")
      else ParseRanges(parts[0], Split(Without(parts[1], ']'), ','))
  }

  function ParseComponents(components: seq<string>): Result<seq<string>> {
    if components == [] then Ok([]) else Append(ParseComponent(components[0]), ParseComponents(components[1..]))
  }

  /** What `parse_node_list` returns. */
  function Parsed(nodeList: string): Result<seq<string>> {
    var s := Strip(nodeList);
    if s == [] then Ok([]) else ParseComponents(SplitTop(s))
  }

  /** The loop over one component. */
  method AddComponent(component: string, before: seq<string>) returns (r: Result<seq<string>>)
    ensures r == Append(Ok(before), ParseComponent(component))
  {
    if '[' !in component { return Ok(before + [component]); }
    var parts := Split(component, '[');
    if |parts| != 2 { return Raised("too many values to unpack"); }
    var header, ranges := parts[0], Split(Without(parts[1], ']'), ',');
    var nodes := before;
    for j := 0 to |ranges|
      invariant Append(Ok(nodes), ParseRanges(header, ranges[j..])) == Append(Ok(before), ParseRanges(header, ranges))
    {
      assert ranges[j..][0] == ranges[j] && ranges[j..][1..] == ranges[j + 1..];
      AppendLaws(Ok(nodes), ParseRange(header, ranges[j]), ParseRanges(header, ranges[j + 1..]));
      if '-' in ranges[j] {
        var ends := Split(ranges[j], '-');
        if |ends| != 2 { return Raised("not enough or too many values to unpack"); }
        var lo, hi := PyInt(ends[0]), PyInt(ends[1]);
        if lo == None || hi == None { return Raised("invalid literal for int"); }
        NoSignNoMinus(ends[0]);
        NoSignNoMinus(ends[1]);
        nodes := nodes + Expand(header, lo.value, hi.value, |ends[1]|);
      } else {
        nodes := nodes + [header + ranges[j]];
      }
    }
    AppendLaws(Ok(nodes), Ok([]), Ok([]));
    return Ok(nodes);
  }

  method ParseNodeList(nodeList: string) returns (r: Result<seq<string>>)
    ensures r == Parsed(nodeList)
  {
    var s := Strip(nodeList);
    if s == [] { return Ok([]); }
    var components := SplitTop(s);
    var nodes: seq<string> := [];
    AppendLaws(ParseComponents(components), Ok([]), Ok([]));
    for i := 0 to |components|
      invariant Append(Ok(nodes), ParseComponents(components[i..])) == ParseComponents(components)
    {
      assert components[i..][0] == components[i] && components[i..][1..] == components[i + 1..];
      AppendLaws(Ok(nodes), ParseComponent(components[i]), ParseComponents(components[i + 1..]));
      var added := AddComponent(components[i], nodes);
      if added.Raised? { return added; }
      nodes := added.value;
    }
    AppendLaws(Ok(nodes), Ok([]), Ok([]));
    return Ok(nodes);
  }

  // ----- Printing -----

  datatype Part = Part(prefix: string, num: nat, width: nat)

  /** How many digits `s` ends with. */
  function TailDigits(s: string): (n: nat)
    ensures n <= |s| && AllDigits(s[|s| - n..])
  {
    if s == [] || !IsDigit(s[|s| - 1]) then 0
    else
      var n := TailDigits(s[..|s| - 1]);
      assert s[|s| - 1 - n..] == s[..|s| - 1][|s| - 1 - n..] + [s[|s| - 1]];
      n + 1
  }

  /** `extract_parts`: prefix up to the last dash, then digits to the end (a final newline aside). */
  function ExtractParts(name: string): Option<Part> {
    var core := if name != [] && name[|name| - 1] == '\n' then name[..|name| - 1] else name;
    var n := TailDigits(core);
    if n == 0 || n == |core| || core[|core| - n - 1] != '-' || '\n' in core then None
    else Some(Part(core[..|core| - n], Val(core[|core| - n..]), n))
  }

  /** What the dict holds for one prefix. */
  datatype Group = Group(prefix: string, nums: seq<nat>, padding: nat)

  /** The distinct prefixes in order of first appearance. */
  function Prefixes(parts: seq<Part>): seq<string> {
    if parts == [] then []
    else
      var front, p := Prefixes(parts[..|parts| - 1]), parts[|parts| - 1].prefix;
      if p in front then front else front + [p]
  }

  /** The numbers that follow `prefix`, in order. */
  function Nums(parts: seq<Part>, prefix: string): seq<nat> {
    if parts == [] then []
    else
      var x := parts[|parts| - 1];
      Nums(parts[..|parts| - 1], prefix) + if x.prefix == prefix then [x.num] else []
  }

  /** The widest numeral that follows `prefix`. */
  function Width(parts: seq<Part>, prefix: string): nat {
    if parts == [] then 0
    else
      var x, w := parts[|parts| - 1], Width(parts[..|parts| - 1], prefix);
      if x.prefix == prefix then Max(w, x.width) else w
  }

  function GroupFor(parts: seq<Part>, prefix: string): Group {
    Group(prefix, Nums(parts, prefix), Width(parts, prefix))
  }

  /** The dict after all names: one group per prefix. */
  function GroupsOf(parts: seq<Part>): (groups: seq<Group>)
    ensures |groups| == |Prefixes(parts)|
    ensures forall i | 0 <= i < |groups| :: groups[i] == GroupFor(parts, Prefixes(parts)[i])
  {
    seq(|Prefixes(parts)|, i requires 0 <= i < |Prefixes(parts)| => GroupFor(parts, Prefixes(parts)[i]))
  }

  /** The slot of a prefix in the dict; the end when it has none. */
  function SlotOf(groups: seq<Group>, prefix: string): (k: nat)
    ensures k <= |groups| && (k < |groups| ==> groups[k].prefix == prefix)
    ensures forall i | 0 <= i < k :: groups[i].prefix != prefix
  {
    if groups == [] || groups[0].prefix == prefix then 0
    else
      assert forall i | 1 <= i < |groups| :: groups[i] == groups[1..][i - 1];
      1 + SlotOf(groups[1..], prefix)
  }

  /** `setdefault` and the two updates of one turn of the loop. */
  function AddPart(groups: seq<Group>, x: Part): seq<Group> {
    var k := SlotOf(groups, x.prefix);
    if k == |groups| then groups + [Group(x.prefix, [x.num], Max(0, x.width))]
    else groups[k := groups[k].(nums := groups[k].nums + [x.num], padding := Max(groups[k].padding, x.width))]
  }

  datatype Span = Span(lo: nat, hi: nat)

  /** The runs of an ascending list, given the run `lo`..`hi` read so far. */
  function RunsFrom(lo: nat, hi: nat, rest: seq<nat>): seq<Span>
    decreases |rest|
  {
    if rest == [] then [Span(lo, hi)]
    else if rest[0] == hi + 1 then RunsFrom(lo, rest[0], rest[1..])
    else [Span(lo, hi)] + RunsFrom(rest[0], rest[0], rest[1..])
  }

  function Runs(nums: seq<nat>): seq<Span> {
    if nums == [] then [] else RunsFrom(nums[0], nums[0], nums[1..])
  }

  function PrintSpan(r: Span, padding: nat): string {
    if r.lo != r.hi then Pad(r.lo, padding) + "-" + Pad(r.hi, padding) else Pad(r.lo, padding)
  }

  function PrintSpans(runs: seq<Span>, padding: nat): (r: seq<string>)
    ensures |r| == |runs| && forall i | 0 <= i < |r| :: r[i] == PrintSpan(runs[i], padding)
  {
    seq(|runs|, i requires 0 <= i < |runs| => PrintSpan(runs[i], padding))
  }

  lemma PrintNext(done: seq<Span>, s: Span, padding: nat)
    ensures PrintSpans(done + [s], padding) == PrintSpans(done, padding) + [PrintSpan(s, padding)]
  {
  }

  lemma RunGoesOn(done: seq<Span>, lo: nat, hi: nat, rest: seq<nat>)
    requires rest != []
    ensures var next := if rest[0] == hi + 1 then done + RunsFrom(lo, rest[0], rest[1..])
                        else done + [Span(lo, hi)] + RunsFrom(rest[0], rest[0], rest[1..]);
            done + RunsFrom(lo, hi, rest) == next
  {
  }

  /** `format_range`, with the loop that extends or closes the current run. */
  method FormatRange(nums: seq<nat>, padding: nat) returns (ranges: seq<string>)
    ensures ranges == PrintSpans(Runs(Sorted(nums, NatLe)), padding)
  {
    if nums == [] { return []; }
    SortedKeeps(nums, NatLe) by { NatLeTotal(); }
    var lst := Sorted(nums, NatLe);
    var start, end := lst[0], lst[0];
    ghost var done: seq<Span> := [];
    ranges := [];
    for i := 1 to |lst|
      invariant ranges == PrintSpans(done, padding)
      invariant done + RunsFrom(start, end, lst[i..]) == Runs(lst)
    {
      var num := lst[i];
      assert lst[i..][0] == num && lst[i..][1..] == lst[i + 1..];
      RunGoesOn(done, start, end, lst[i..]);
      if num == end + 1 {
        end := num;
      } else {
        var text := if start != end then Pad(start, padding) + "-" + Pad(end, padding) else Pad(start, padding);
        PrintNext(done, Span(start, end), padding);
        ranges := ranges + [text];
        done := done + [Span(start, end)];
        start, end := num, num;
      }
    }
    var text := if start != end then Pad(start, padding) + "-" + Pad(end, padding) else Pad(start, padding);
    PrintNext(done, Span(start, end), padding);
    ranges := ranges + [text];
    assert Runs(lst) == done + [Span(start, end)];
  }

  function Bracketed(prefix: string, ranges: seq<string>): string {
    prefix + if ranges != [] then "[" + Join(ranges, ",") + "]" else ""
  }

  function PrintGroup(g: Group): string {
    Bracketed(g.prefix, PrintSpans(Runs(Sorted(g.nums, NatLe)), g.padding))
  }

  function PrintGroups(groups: seq<Group>): (r: seq<string>)
    ensures |r| == |groups| && forall i | 0 <= i < |r| :: r[i] == PrintGroup(groups[i])
  {
    seq(|groups|, i requires 0 <= i < |groups| => PrintGroup(groups[i]))
  }

  predicate Extractable(names: seq<string>) {
    forall i | 0 <= i < |names| :: ExtractParts(names[i]).Some?
  }

  function PartsOf(names: seq<string>): (parts: seq<Part>)
    requires Extractable(names)
    ensures |parts| == |names| && forall i | 0 <= i < |names| :: parts[i] == ExtractParts(names[i]).value
  {
    seq(|names|, i requires 0 <= i < |names| => ExtractParts(names[i]).value)
  }

  /** What `format_node_list` returns. */
  function Formatted(names: seq<string>): string
    requires Extractable(names)
  {
    Join(PrintGroups(GroupsOf(PartsOf(names))), ", ")
  }

  lemma OneMore(parts: seq<Part>, x: Part, prefix: string)
    ensures Nums(parts + [x], prefix) == Nums(parts, prefix) + if x.prefix == prefix then [x.num] else []
    ensures Width(parts + [x], prefix) == if x.prefix == prefix then Max(Width(parts, prefix), x.width) else Width(parts, prefix)
    ensures Prefixes(parts + [x]) == if x.prefix in Prefixes(parts) then Prefixes(parts) else Prefixes(parts) + [x.prefix]
  {
    assert (parts + [x])[..|parts|] == parts;
  }

  lemma {:induction false} NumsNone(parts: seq<Part>, prefix: string)
    requires prefix !in Prefixes(parts)
    ensures Nums(parts, prefix) == [] && Width(parts, prefix) == 0
    decreases |parts|
  {
    if parts != [] {
      NumsNone(parts[..|parts| - 1], prefix);
    }
  }

  lemma {:induction false} PrefixesDistinct(parts: seq<Part>)
    ensures forall i, j | 0 <= i < j < |Prefixes(parts)| :: Prefixes(parts)[i] != Prefixes(parts)[j]
    decreases |parts|
  {
    if parts != [] {
      PrefixesDistinct(parts[..|parts| - 1]);
    }
  }

  /** One turn of the loop over the names keeps the dict what `GroupsOf` says. */
  lemma AddPartKeeps(parts: seq<Part>, x: Part)
    ensures AddPart(GroupsOf(parts), x) == GroupsOf(parts + [x])
  {
    var groups, after := GroupsOf(parts), GroupsOf(parts + [x]);
    var k := SlotOf(groups, x.prefix);
    OneMore(parts, x, x.prefix);
    PrefixesDistinct(parts);
    if k == |groups| {
      NotAPrefix(parts, x.prefix);
    }
    forall i | 0 <= i < |after| ensures AddPart(groups, x)[i] == after[i] {
      OneMore(parts, x, Prefixes(parts + [x])[i]);
      if i < |groups| && i != k {
        assert Prefixes(parts)[i] != x.prefix;
      }
    }
  }

  lemma NotAPrefix(parts: seq<Part>, prefix: string)
    requires SlotOf(GroupsOf(parts), prefix) == |GroupsOf(parts)|
    ensures prefix !in Prefixes(parts) && Nums(parts, prefix) == [] && Width(parts, prefix) == 0
  {
    var groups := GroupsOf(parts);
    forall i | 0 <= i < |Prefixes(parts)| ensures Prefixes(parts)[i] != prefix {
      assert groups[i].prefix == Prefixes(parts)[i];
    }
    NumsNone(parts, prefix);
  }

  /** The parts of the first names. */
  predicate Extracted(names: seq<string>, parts: seq<Part>) {
    |parts| <= |names| && forall k | 0 <= k < |parts| :: ExtractParts(names[k]) == Some(parts[k])
  }

  lemma AllExtracted(names: seq<string>, parts: seq<Part>)
    requires Extracted(names, parts) && |parts| == |names|
    ensures Extractable(names) && parts == PartsOf(names)
  {
  }

  lemma ExtractedNext(names: seq<string>, parts: seq<Part>, x: Part)
    requires Extracted(names, parts) && |parts| < |names| && ExtractParts(names[|parts|]) == Some(x)
    ensures Extracted(names, parts + [x])
  {
    var longer := parts + [x];
    forall k | 0 <= k < |longer| ensures ExtractParts(names[k]) == Some(longer[k]) {
      if k < |parts| {
        assert longer[k] == parts[k];
      }
    }
  }

  lemma NotExtractable(names: seq<string>, i: nat)
    requires i < |names| && ExtractParts(names[i]) == None
    ensures !Extractable(names)
  {
  }

  /** The loop over the names; `parts` is what it has read. */
  method GroupNames(names: seq<string>) returns (r: Result<seq<Group>>, ghost parts: seq<Part>)
    ensures r.Ok? ==> Extracted(names, parts) && |parts| == |names| && r.value == GroupsOf(parts)
    ensures r.Raised? ==> !Extractable(names)
  {
    var groups: seq<Group> := [];
    parts := [];
    for i := 0 to |names|
      invariant |parts| == i && groups == GroupsOf(parts) && Extracted(names, parts)
    {
      var x := ExtractParts(names[i]);
      if x == None {
        NotExtractable(names, i);
        return Raised("Cannot extract numeric part"), parts;
      }
      AddPartKeeps(parts, x.value);
      ExtractedNext(names, parts, x.value);
      groups := AddPart(groups, x.value);
      parts := parts + [x.value];
    }
    return Ok(groups), parts;
  }

  method FormatGroups(groups: seq<Group>) returns (formatted: seq<string>)
    ensures formatted == PrintGroups(groups)
  {
    formatted := [];
    for i := 0 to |groups|
      invariant |formatted| == i && forall k | 0 <= k < i :: formatted[k] == PrintGroup(groups[k])
    {
      var ranges := FormatRange(groups[i].nums, groups[i].padding);
      formatted := formatted + [Bracketed(groups[i].prefix, ranges)];
    }
  }
}
