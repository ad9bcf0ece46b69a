/** What the node-list notation means, whoever has written it: plain names, bracketed lists, and lists of both. */
module NodeListNotation {
  import opened Basics
  import opened Strings
  import opened NodeList
  import opened NodeListTrip

  // ----- Plain names -----

  lemma {:induction false} SplitTopNone(s: string)
    requires ',' !in s
    ensures SplitTop(s) == [s]
    decreases |s|
  {
    if s != [] {
      SplitTopNone(s[1..]);
      assert s == [s[0]] + s[1..];
    }
  }

  /** Neither surrounded by whitespace nor empty. */
  predicate Trimmed(s: string) {
    s != [] && !IsSpace(s[0]) && !IsSpace(s[|s| - 1])
  }

  lemma OneComponent(s: string)
    requires Trimmed(s) && SplitTop(s) == [s]
    ensures Parsed(s) == ParseComponent(s)
  {
    StripNone(s);
    AppendLaws(ParseComponent(s), Ok([]), Ok([]));
    assert ParseComponents([s]) == Append(ParseComponent(s), ParseComponents([s][1..]));
  }

  /** A name without brackets and commas stands for itself. */
  lemma PlainNameParses(s: string)
    requires Trimmed(s) && '[' !in s && ',' !in s
    ensures Parsed(s) == Ok([s])
  {
    SplitTopNone(s);
    OneComponent(s);
  }

  // ----- Bracketed lists -----

  /** What can stand between the brackets: any text, or a range of numerals. */
  datatype Entry = Single(text: string) | Between(lo: string, hi: string)

  predicate Wellformed(e: Entry) {
    match e
    case Single(text) => '-' !in text && ',' !in text && '[' !in text && ']' !in text
    case Between(lo, hi) => lo != [] && hi != [] && AllDigits(lo) && AllDigits(hi)
  }

  function Text(e: Entry): string {
    match e
    case Single(text) => text
    case Between(lo, hi) => lo + "-" + hi
  }

  function Count(e: Entry): nat
    requires Wellformed(e)
  {
    match e
    case Single(_) => 1
    case Between(lo, hi) => if Val(lo) <= Val(hi) then Val(hi) - Val(lo) + 1 else 0
  }

  /** A text follows the header as it is; the numbers of a range are padded to the width of its end. */
  function NameAt(header: string, e: Entry, i: nat): string
    requires Wellformed(e) && i < Count(e)
  {
    match e
    case Single(text) => header + text
    case Between(lo, hi) => header + Pad(Val(lo) + i, |hi|)
  }

  function EntryNames(header: string, e: Entry): (names: seq<string>)
    requires Wellformed(e)
    ensures |names| == Count(e)
  {
    seq(Count(e), i requires 0 <= i < Count(e) => NameAt(header, e, i))
  }

  predicate AllWellformed(entries: seq<Entry>) {
    forall i | 0 <= i < |entries| :: Wellformed(entries[i])
  }

  function ListNames(header: string, entries: seq<Entry>): seq<string>
    requires AllWellformed(entries)
  {
    if entries == [] then [] else EntryNames(header, entries[0]) + ListNames(header, entries[1..])
  }

  function Texts(entries: seq<Entry>): (r: seq<string>)
    ensures |r| == |entries| && forall i | 0 <= i < |r| :: r[i] == Text(entries[i])
  {
    seq(|entries|, i requires 0 <= i < |entries| => Text(entries[i]))
  }

  lemma {:induction false} ExpandAt(header: string, lo: nat, hi: nat, width: nat, i: nat)
    requires lo + i <= hi
    ensures Expand(header, lo, hi, width)[i] == header + Pad(lo + i, width)
    decreases i
  {
    if i > 0 {
      ExpandAt(header, lo + 1, hi, width, i - 1);
    }
  }

  lemma RangeSplits(lo: string, hi: string)
    requires AllDigits(lo) && AllDigits(hi)
    ensures '-' in lo + "-" + hi && Split(lo + "-" + hi, '-') == [lo, hi]
  {
    var s := lo + ['-'] + hi;
    assert s == lo + "-" + hi && s[|lo|] == '-';
    DigitsClean(lo, '-');
    DigitsClean(hi, '-');
    SplitFirst(lo, '-', hi);
    SplitNone(hi, '-');
  }

  lemma RangeParses(header: string, lo: string, hi: string)
    requires lo != [] && hi != [] && AllDigits(lo) && AllDigits(hi)
    ensures ParseRange(header, lo + "-" + hi) == Ok(Expand(header, Val(lo), Val(hi), |hi|))
  {
    RangeSplits(lo, hi);
    PyIntDigits(lo);
    PyIntDigits(hi);
  }

  lemma ExpandIsEntry(header: string, e: Entry)
    requires Wellformed(e) && e.Between?
    ensures Expand(header, Val(e.lo), Val(e.hi), |e.hi|) == EntryNames(header, e)
  {
    var names := Expand(header, Val(e.lo), Val(e.hi), |e.hi|);
    forall i | 0 <= i < Count(e) ensures names[i] == EntryNames(header, e)[i] {
      ExpandAt(header, Val(e.lo), Val(e.hi), |e.hi|, i);
    }
  }

  lemma EntryParses(header: string, e: Entry)
    requires Wellformed(e)
    ensures ParseRange(header, Text(e)) == Ok(EntryNames(header, e))
  {
    if e.Between? {
      RangeParses(header, e.lo, e.hi);
      ExpandIsEntry(header, e);
    } else {
      assert EntryNames(header, e) == [header + e.text];
    }
  }

  lemma {:induction false} EntriesParse(header: string, entries: seq<Entry>)
    requires AllWellformed(entries)
    ensures ParseRanges(header, Texts(entries)) == Ok(ListNames(header, entries))
    decreases |entries|
  {
    if entries != [] {
      EntryParses(header, entries[0]);
      EntriesParse(header, entries[1..]);
      assert Texts(entries)[1..] == Texts(entries[1..]);
    }
  }

  lemma TextClean(e: Entry, c: char)
    requires Wellformed(e) && (c == ',' || c == '[' || c == ']')
    ensures c !in Text(e)
  {
    if e.Between? {
      DigitsClean(e.lo, c);
      DigitsClean(e.hi, c);
    }
  }

  lemma BodyClean(entries: seq<Entry>)
    requires AllWellformed(entries)
    ensures var body := Join(Texts(entries), ","); '[' !in body && ']' !in body
    ensures forall i | 0 <= i < |entries| :: ',' !in Texts(entries)[i]
  {
    forall i | 0 <= i < |entries| ensures ',' !in Texts(entries)[i] && '[' !in Texts(entries)[i] && ']' !in Texts(entries)[i] {
      TextClean(entries[i], ',');
      TextClean(entries[i], '[');
      TextClean(entries[i], ']');
    }
    JoinClean(Texts(entries), ",", '[');
    JoinClean(Texts(entries), ",", ']');
  }

  function Bracketing(header: string, entries: seq<Entry>): string {
    header + "[" + Join(Texts(entries), ",") + "]"
  }

  lemma SplitBracket(header: string, body: string)
    requires '[' !in header && '[' !in body && ']' !in body
    ensures Split(header + "[" + body + "]", '[') == [header, body + "]"] && Without(body + "]", ']') == body
  {
    assert header + "[" + body + "]" == header + ['['] + (body + "]");
    SplitFirst(header, '[', body + "]");
    SplitNone(body + "]", '[');
    WithoutNone(body, ']', "]");
    assert Without("]", ']') == [] && body + [] == body;
  }

  lemma BracketingParses(header: string, entries: seq<Entry>)
    requires AllWellformed(entries) && entries != [] && '[' !in header
    ensures ParseComponent(Bracketing(header, entries)) == Ok(ListNames(header, entries))
  {
    var body, text := Join(Texts(entries), ","), Bracketing(header, entries);
    BodyClean(entries);
    SplitBracket(header, body);
    assert text[|header|] == '[';
    SplitJoin(Texts(entries), ',');
    EntriesParse(header, entries);
  }

  /** A header with a bracketed list stands for the header with each entry, padded or not, in any order. */
  lemma BracketedListParses(header: string, entries: seq<Entry>)
    requires AllWellformed(entries) && entries != []
    requires '[' !in header && ',' !in header && (header == [] || !IsSpace(header[0]))
    ensures Parsed(Bracketing(header, entries)) == Ok(ListNames(header, entries))
  {
    var body, text := Join(Texts(entries), ","), Bracketing(header, entries);
    BodyClean(entries);
    BracketsNoSeparator(header, body, []);
    SplitTopSkip(text, []);
    assert text + [] == text && SplitTop([]) == [[]];
    assert text[0] == if header == [] then '[' else header[0];
    assert text[|text| - 1] == ']';
    OneComponent(text);
    BracketingParses(header, entries);
  }

  function Mixed(): (entries: seq<Entry>)
    ensures AllWellformed(entries)
  {
    [Between("1", "2"), Single("07")]
  }

  lemma MixedText()
    ensures Bracketing("n", Mixed()) == "n[1-2,07]"
  {
    assert "1" + "-" + "2" == "1-2";
    assert Texts(Mixed()) == ["1-2", "07"];
    assert ["1-2", "07"][1..] == ["07"];
    assert Join(["1-2", "07"], ",") == "1-2" + "," + Join(["07"], ",");
  }

  lemma MixedNames()
    ensures ListNames("n", Mixed()) == ["n1", "n2", "n07"]
  {
    var range, single := Mixed()[0], Mixed()[1];
    assert Dec(1) == "1" && Dec(2) == "2";
    ValDec(1);
    ValDec(2);
    assert "n" + "1" == "n1" && "n" + "2" == "n2" && "n" + "07" == "n07";
    assert EntryNames("n", range) == ["n" + Pad(1, 1), "n" + Pad(2, 1)] == ["n1", "n2"];
    assert EntryNames("n", single) == ["n07"];
    assert Mixed()[1..] == [single] && [single][1..] == [];
    assert ListNames("n", [single]) == ["n07"] + ListNames("n", []);
  }

  /** For instance "n[1-2,07]". */
  lemma MixedListParses()
    ensures Parsed("n[1-2,07]") == Ok(["n1", "n2", "n07"])
  {
    MixedText();
    MixedNames();
    BracketedListParses("n", Mixed());
  }

  // ----- What raises -----

  /** A range with one dash raises exactly when one of its ends is no integer. */
  lemma DashedRaisesIff(header: string, lo: string, hi: string)
    requires '-' !in lo && '-' !in hi
    ensures ParseRange(header, lo + "-" + hi).Raised? <==> PyInt(lo) == None || PyInt(hi) == None
  {
    var s := lo + ['-'] + hi;
    assert s == lo + "-" + hi && s[|lo|] == '-';
    SplitFirst(lo, '-', hi);
    SplitNone(hi, '-');
  }

  lemma TwoDashesRaise(header: string, a: string, b: string, c: string)
    requires '-' !in a && '-' !in b
    ensures ParseRange(header, a + "-" + b + "-" + c).Raised?
  {
    var s := a + ['-'] + (b + ['-'] + c);
    assert s == a + "-" + b + "-" + c && s[|a|] == '-';
    SplitFirst(a, '-', b + ['-'] + c);
    SplitFirst(b, '-', c);
  }

  lemma TwoBracketsRaise(a: string, b: string, c: string)
    requires '[' !in a && '[' !in b
    ensures ParseComponent(a + "[" + b + "[" + c).Raised?
  {
    var s := a + ['['] + (b + ['['] + c);
    assert s == a + "[" + b + "[" + c && s[|a|] == '[';
    SplitFirst(a, '[', b + ['['] + c);
    SplitFirst(b, '[', c);
  }

  // ----- Lists -----

  lemma {:induction false} ClosesThrough(a: string, tail: string)
    requires !ClosesFirst(tail)
    ensures ClosesFirst(a + "," + tail) == ClosesFirst(a)
    decreases |a|
  {
    var s := a + "," + tail;
    if a == [] {
      assert s[1..] == tail;
    } else {
      ClosesThrough(a[1..], tail);
      assert s[1..] == a[1..] + "," + tail;
    }
  }

  lemma HeadOf(c: char, x: seq<string>, y: seq<string>)
    requires x != []
    ensures [[c] + (x + y)[0]] + (x + y)[1..] == ([[c] + x[0]] + x[1..]) + y
  {
  }

  lemma AtSeparator(s: string, a: string, x: seq<string>, y: seq<string>)
    requires s != [] && s[0] == ',' && !ClosesFirst(s[1..]) && SplitTop(LStrip(s[1..])) == x + y
    requires a != [] && a[0] == ',' && !ClosesFirst(a[1..]) && SplitTop(LStrip(a[1..])) == x
    ensures SplitTop(s) == SplitTop(a) + y
  {
  }

  lemma AtOther(s: string, a: string, x: seq<string>, y: seq<string>)
    requires s != [] && a != [] && s[0] == a[0] && (s[0] == ',' ==> ClosesFirst(s[1..]) && ClosesFirst(a[1..]))
    requires x != [] && SplitTop(s[1..]) == x + y && SplitTop(a[1..]) == x
    ensures SplitTop(s) == SplitTop(a) + y
  {
    HeadOf(s[0], x, y);
  }

  /** A comma that nothing closes over separates; what stands before it splits as it does alone. */
  lemma {:induction false} SplitTopAt(a: string, tail: string)
    requires !ClosesFirst(tail) && (a == [] || !IsSpace(a[|a| - 1]))
    ensures SplitTop(a + "," + tail) == SplitTop(a) + SplitTop(LStrip(tail))
    decreases |a|
  {
    var s, y := a + "," + tail, SplitTop(LStrip(tail));
    if a == [] {
      assert s[1..] == tail;
    } else {
      var t := a[1..];
      assert s[0] == a[0] && s[1..] == t + "," + tail;
      ClosesThrough(t, tail);
      if a[0] == ',' && !ClosesFirst(t) {
        SeparatorFirst(t, tail);
        LStripEnd(t);
        SplitTopAt(LStrip(t), tail);
        AtSeparator(s, a, SplitTop(LStrip(t)), y);
      } else {
        SplitTopAt(t, tail);
        AtOther(s, a, SplitTop(t), y);
      }
    }
  }

  lemma SeparatorFirst(t: string, tail: string)
    ensures LStrip(t + "," + tail) == LStrip(t) + "," + tail
  {
    LStripFirst(t, "," + tail);
    assert t + ("," + tail) == t + "," + tail;
    assert LStrip(t) + ("," + tail) == LStrip(t) + "," + tail;
  }

  lemma {:induction false} LStripFirst(a: string, tail: string)
    requires tail != [] && !IsSpace(tail[0])
    ensures LStrip(a + tail) == LStrip(a) + tail
    decreases |a|
  {
    if a == [] {
      assert a + tail == tail && LStrip(a) + tail == tail;
    } else if IsSpace(a[0]) {
      LStripFirst(a[1..], tail);
      assert (a + tail)[1..] == a[1..] + tail;
    }
  }

  lemma {:induction false} LStripEnd(a: string)
    ensures LStrip(a) == [] || LStrip(a)[|LStrip(a)| - 1] == a[|a| - 1]
    decreases |a|
  {
    if a != [] && IsSpace(a[0]) {
      LStripEnd(a[1..]);
    }
  }

  lemma {:induction false} LStripSpaces(ws: string, s: string)
    requires forall i | 0 <= i < |ws| :: IsSpace(ws[i])
    ensures LStrip(ws + s) == LStrip(s)
    decreases |ws|
  {
    if ws == [] {
      assert ws + s == s;
    } else {
      LStripSpaces(ws[1..], s);
      assert (ws + s)[1..] == ws[1..] + s;
    }
  }

  lemma {:induction false} ClosesAfterSpaces(ws: string, s: string)
    requires forall i | 0 <= i < |ws| :: IsSpace(ws[i])
    ensures ClosesFirst(ws + s) == ClosesFirst(s)
    decreases |ws|
  {
    if ws == [] {
      assert ws + s == s;
    } else {
      ClosesAfterSpaces(ws[1..], s);
      assert (ws + s)[1..] == ws[1..] + s;
    }
  }

  lemma {:induction false} ComponentsConcat(a: seq<string>, b: seq<string>)
    ensures ParseComponents(a + b) == Append(ParseComponents(a), ParseComponents(b))
    decreases |a|
  {
    if a == [] {
      assert a + b == b;
      AppendLaws(ParseComponents(b), Ok([]), Ok([]));
    } else {
      ComponentsConcat(a[1..], b);
      assert (a + b)[0] == a[0] && (a + b)[1..] == a[1..] + b;
      AppendLaws(ParseComponent(a[0]), ParseComponents(a[1..]), ParseComponents(b));
    }
  }

  /** Two lists with a comma and any whitespace between them stand for the names of the first and then those of
      the second, or for what raises first; provided that no bracket closes over the comma. */
  lemma ConcatenationParses(a: string, ws: string, b: string)
    requires Trimmed(a) && Trimmed(b) && !ClosesFirst(b) && forall i | 0 <= i < |ws| :: IsSpace(ws[i])
    ensures Parsed(a + "," + ws + b) == Append(Parsed(a), Parsed(b))
  {
    var s := a + "," + (ws + b);
    assert s == a + "," + ws + b;
    StripNone(a);
    StripNone(b);
    assert s[0] == a[0] && s[|s| - 1] == b[|b| - 1];
    StripNone(s);
    ClosesAfterSpaces(ws, b);
    SplitTopAt(a, ws + b);
    LStripSpaces(ws, b);
    ComponentsConcat(SplitTop(a), SplitTop(b));
  }

  lemma {:induction false} StripSpaces(before: string, s: string, after: string)
    requires s == [] || Trimmed(s)
    requires (forall i | 0 <= i < |before| :: IsSpace(before[i])) && (forall i | 0 <= i < |after| :: IsSpace(after[i]))
    ensures Strip(before + s + after) == s
    decreases |before| + |after|
  {
    LStripSpaces(before, s + after);
    assert before + (s + after) == before + s + after;
    if s == [] {
      assert s + after == after + [];
      LStripSpaces(after, []);
    } else {
      assert LStrip(s + after) == s + after;
      RStripSpaces(s, after);
    }
  }

  lemma {:induction false} RStripSpaces(s: string, ws: string)
    requires Trimmed(s) && forall i | 0 <= i < |ws| :: IsSpace(ws[i])
    ensures RStrip(s + ws) == s
    decreases |ws|
  {
    if ws == [] {
      assert s + ws == s;
    } else {
      RStripSpaces(s, ws[..|ws| - 1]);
      assert (s + ws)[..|s + ws| - 1] == s + ws[..|ws| - 1];
    }
  }

  /** Whitespace around a list changes nothing, and a list of whitespace is empty. */
  lemma SurroundingSpaceIgnored(before: string, s: string, after: string)
    requires s == [] || Trimmed(s)
    requires (forall i | 0 <= i < |before| :: IsSpace(before[i])) && (forall i | 0 <= i < |after| :: IsSpace(after[i]))
    ensures Parsed(before + s + after) == if s == [] then Ok([]) else Parsed(s)
  {
    StripSpaces(before, s, after);
    if s != [] {
      StripNone(s);
    }
  }
}
