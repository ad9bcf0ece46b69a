/** Time limits: `parse_time_limit` and `format_time_limit`, and when one undoes the other. */
module TimeLimits {
  import opened Basics
  import opened Strings

  const DAY := 86400

  /** A `timedelta` in whole seconds; outside this range its constructor raises. */
  predicate InRange(seconds: int) {
    -999999999 * DAY <= seconds < 1000000000 * DAY
  }

  function Delta(seconds: int): Result<int> {
    if InRange(seconds) then Ok(seconds) else Raised("OverflowError")
  }

  /** Digits and one unit letter of either case. */
  predicate IsAbbreviated(limit: string) {
    |limit| >= 2 && AllDigits(limit[..|limit| - 1]) && limit[|limit| - 1] in "smhdwSMHDW"
  }

  function UnitOf(c: char): nat {
    if c in "sS" then 1
    else if c in "mM" then 60
    else if c in "hH" then 3600
    else if c in "dD" then DAY
    else 7 * DAY
  }

  /** `map(int, s.split(":"))`, all or nothing. */
  function Ints(parts: seq<string>): (r: Option<seq<int>>)
    ensures r.Some? ==> |r.value| == |parts|
  {
    if parts == [] then Some([])
    else
      var n, rest := PyInt(parts[0]), Ints(parts[1..]);
      if n.Some? && rest.Some? then Some([n.value] + rest.value) else None
  }

  function ParseAbbreviated(limit: string): Result<int>
    requires IsAbbreviated(limit)
  {
    Delta(Val(limit[..|limit| - 1]) * UnitOf(limit[|limit| - 1]))
  }

  function Combine(days: int, hours: int, minutes: int, seconds: int): int {
    days * DAY + hours * 3600 + minutes * 60 + seconds
  }

  /** `s.split(c, 1)` of a string that contains `c`. */
  function SplitOnce(s: string, c: char): (string, string)
    requires c in s
  {
    if s[0] == c then ([], s[1..]) else var (a, b) := SplitOnce(s[1..], c); ([s[0]] + a, b)
  }

  function ParseDashed(limit: string): Result<int>
    requires '-' in limit
  {
    var (days, time) := SplitOnce(limit, '-');
    var d, t := PyInt(days), Ints(Split(time, ':'));
    if d.Some? && t.Some? && |t.value| == 3 then Delta(Combine(d.value, t.value[0], t.value[1], t.value[2]))
    else Raised("Invalid time limit format")
  }

  function ParseTimeLimit(limit: string): Result<int> {
    if IsAbbreviated(limit) then ParseAbbreviated(limit)
    else if '-' in limit then ParseDashed(limit)
    else
      var parts := Split(limit, ':');
      if |parts| == 3 || |parts| == 2 then
        match Ints(parts)
        case Some(t) => Delta(Combine(0, t[0], t[1], if |t| == 3 then t[2] else 0))
        case None => Raised("Invalid time limit format")
      else Raised("Unsupported time limit format")
  }

  function Clock(h: nat, m: nat, s: nat): string {
    Pad(h, 2) + ":" + Pad(m, 2) + ":" + Pad(s, 2)
  }

  /** `divmod` floors, as Euclidean division by a positive number does. */
  function FormatTimeLimit(total: int): string {
    var days, rest := total / DAY, total % DAY;
    var clock := Clock(rest / 3600, rest % 3600 / 60, rest % 60);
    if days > 0 then Dec(days) + ['-'] + clock else clock
  }

  // ----- Parsing what was printed -----

  lemma NoColon(s: string, c: char)
    requires AllDigits(s) && !IsDigit(c)
    ensures c !in s
  {
  }

  /** The three numbers of a printed clock. */
  lemma ClockParses(h: nat, m: nat, s: nat)
    ensures var clock := Clock(h, m, s);
            Ints(Split(clock, ':')) == Some([h, m, s]) && Split(clock, ':') == [Pad(h, 2), Pad(m, 2), Pad(s, 2)]
  {
    var parts := [Pad(h, 2), Pad(m, 2), Pad(s, 2)];
    var clock := Clock(h, m, s);
    forall i | 0 <= i < 3 ensures ':' !in parts[i] { NoColon(parts[i], ':'); }
    JoinThree(parts[0], parts[1], parts[2]);
    SplitJoin(parts, ':');
    forall n: nat ensures PyInt(Pad(n, 2)) == Some(n) { PyIntPad(n); }
    IntsThree(parts[0], parts[1], parts[2], h, m, s);
  }

  lemma PyIntPad(n: nat)
    ensures PyInt(Pad(n, 2)) == Some(n)
  {
    PyIntDigits(Pad(n, 2));
    ValPad(n, 2);
  }

  lemma IntsThree(a: string, b: string, c: string, x: int, y: int, z: int)
    requires PyInt(a) == Some(x) && PyInt(b) == Some(y) && PyInt(c) == Some(z)
    ensures Ints([a, b, c]) == Some([x, y, z])
  {
    assert [a, b, c][1..] == [b, c] && [b, c][1..] == [c] && [c][1..] == [];
    assert [z] + [] == [z] && [y] + [z] == [y, z] && [x] + [y, z] == [x, y, z];
    assert Ints([c]) == Some([z]);
    assert Ints([b, c]) == Some([y, z]);
  }

  lemma JoinThree(a: string, b: string, c: string)
    ensures Join([a, b, c], ":") == a + ":" + b + ":" + c
  {
    assert [a, b, c][1..] == [b, c] && [b, c][1..] == [c];
    assert Join([b, c], ":") == b + ":" + c;
    assert a + ":" + (b + ":" + c) == a + ":" + b + ":" + c;
  }

  lemma {:induction false} SplitOnceFirst(a: string, c: char, b: string)
    requires c !in a
    ensures c in a + [c] + b && SplitOnce(a + [c] + b, c) == (a, b)
    decreases |a|
  {
    var s := a + [c] + b;
    if a == [] {
      assert s[1..] == b;
    } else {
      SplitOnceFirst(a[1..], c, b);
      assert s[1..] == a[1..] + [c] + b && a == [a[0]] + a[1..];
    }
  }

  lemma ClockShape(h: nat, m: nat, s: nat)
    ensures var clock := Clock(h, m, s);
            '-' !in clock && ':' in clock
  {
    NoColon(Pad(h, 2), '-');
    NoColon(Pad(m, 2), '-');
    NoColon(Pad(s, 2), '-');
  }

  /** The fields add up. */
  lemma Fields(total: int)
    ensures var days, rest := total / DAY, total % DAY;
            && Combine(days, rest / 3600, rest % 3600 / 60, rest % 60) == total
            && Combine(0, rest / 3600, rest % 3600 / 60, rest % 60) == rest
  {
  }

  lemma SignsRefuse(limit: string, c: char)
    requires c in limit && (c == ':' || c == '-')
    ensures !IsAbbreviated(limit)
  {
    var i :| 0 <= i < |limit| && limit[i] == c;
    assert i < |limit| - 1 ==> limit[..|limit| - 1][i] == c;
  }

  lemma ClockAlone(h: nat, m: nat, s: nat)
    ensures ParseTimeLimit(Clock(h, m, s)) == Delta(Combine(0, h, m, s))
  {
    ClockParses(h, m, s);
    ClockShape(h, m, s);
    SignsRefuse(Clock(h, m, s), ':');
  }

  lemma DashedFields(days: string, time: string, d: int, t: seq<int>)
    requires '-' !in days && PyInt(days) == Some(d) && Ints(Split(time, ':')) == Some(t) && |t| == 3
    ensures '-' in days + ['-'] + time
    ensures ParseDashed(days + ['-'] + time) == Delta(Combine(d, t[0], t[1], t[2]))
  {
    SplitOnceFirst(days, '-', time);
  }

  lemma DashDecides(limit: string)
    requires '-' in limit && !IsAbbreviated(limit)
    ensures ParseTimeLimit(limit) == ParseDashed(limit)
  {
  }

  lemma DashedParses(days: string, time: string, d: int, t: seq<int>)
    requires '-' !in days && PyInt(days) == Some(d) && Ints(Split(time, ':')) == Some(t) && |t| == 3
    ensures ParseTimeLimit(days + ['-'] + time) == Delta(Combine(d, t[0], t[1], t[2]))
  {
    DashedFields(days, time, d, t);
    SignsRefuse(days + ['-'] + time, '-');
    DashDecides(days + ['-'] + time);
  }

  lemma ClockAfterDays(days: nat, h: nat, m: nat, s: nat)
    ensures ParseTimeLimit(Dec(days) + ['-'] + Clock(h, m, s)) == Delta(Combine(days, h, m, s))
  {
    ClockParses(h, m, s);
    ClockShape(h, m, s);
    NoColon(Dec(days), '-');
    PyIntDigits(Dec(days));
    ValDec(days);
    DashedParses(Dec(days), Clock(h, m, s), days, [h, m, s]);
  }

  /** What parsing makes of any printed duration: a negative one loses its days. */
  lemma ParseOfFormat(total: int)
    requires InRange(total)
    ensures ParseTimeLimit(FormatTimeLimit(total)) == Ok(if total >= 0 then total else total % DAY)
  {
    var days, rest := total / DAY, total % DAY;
    Fields(total);
    assert InRange(rest) && (total >= 0 && days <= 0 ==> rest == total);
    assert days > 0 ==> total >= 0;
    PrintedParses(days, rest / 3600, rest % 3600 / 60, rest % 60);
  }

  lemma PrintedParses(days: int, h: nat, m: nat, s: nat)
    ensures ParseTimeLimit(if days > 0 then Dec(days) + ['-'] + Clock(h, m, s) else Clock(h, m, s))
         == Delta(Combine(if days > 0 then days else 0, h, m, s))
  {
    if days > 0 {
      ClockAfterDays(days, h, m, s);
    } else {
      ClockAlone(h, m, s);
    }
  }

  /** Printing and parsing is the identity exactly on the durations that are not negative. */
  lemma RoundTripIffNotNegative(total: int)
    requires InRange(total)
    ensures ParseTimeLimit(FormatTimeLimit(total)) == Ok(total) <==> total >= 0
  {
    ParseOfFormat(total);
  }

  // ----- What a limit means -----

  /** Digits and a unit: seconds, minutes, hours, days or weeks, in either case. */
  lemma AbbreviatedMeans(s: string, c: char)
    requires s != [] && AllDigits(s) && c in "smhdwSMHDW"
    ensures c in "sS" ==> ParseTimeLimit(s + [c]) == Delta(Val(s))
    ensures c in "mM" ==> ParseTimeLimit(s + [c]) == Delta(Val(s) * 60)
    ensures c in "hH" ==> ParseTimeLimit(s + [c]) == Delta(Val(s) * 3600)
    ensures c in "dD" ==> ParseTimeLimit(s + [c]) == Delta(Val(s) * 86400)
    ensures c in "wW" ==> ParseTimeLimit(s + [c]) == Delta(Val(s) * 604800)
  {
    var limit := s + [c];
    assert limit[..|limit| - 1] == s && limit[|limit| - 1] == c;
    UnitsOf(c);
  }

  lemma UnitsOf(c: char)
    requires c in "smhdwSMHDW"
    ensures c in "sS" ==> UnitOf(c) == 1
    ensures c in "mM" ==> UnitOf(c) == 60
    ensures c in "hH" ==> UnitOf(c) == 3600
    ensures c in "dD" ==> UnitOf(c) == 86400
    ensures c in "wW" ==> UnitOf(c) == 604800
  {
  }

  /** Hours and minutes, and seconds if there are any. */
  function Clocked(t: seq<int>): int
    requires |t| == 2 || |t| == 3
  {
    3600 * t[0] + 60 * t[1] + if |t| == 3 then t[2] else 0
  }

  /** The texts between the colons are read as these integers. */
  predicate ReadAs(parts: seq<string>, t: seq<int>) {
    |parts| == |t| && forall i | 0 <= i < |parts| :: ':' !in parts[i] && PyInt(parts[i]) == Some(t[i])
  }

  lemma {:induction false} ReadInts(parts: seq<string>, t: seq<int>)
    requires ReadAs(parts, t)
    ensures Ints(parts) == Some(t)
    decreases |parts|
  {
    if parts != [] {
      ReadInts(parts[1..], t[1..]);
      assert t == [t[0]] + t[1..];
    }
  }

  lemma SplitFields(parts: seq<string>, t: seq<int>)
    requires ReadAs(parts, t) && parts != []
    ensures Split(Join(parts, [':']), ':') == parts && Ints(parts) == Some(t)
    ensures |parts| > 1 ==> ':' in Join(parts, [':'])
  {
    SplitJoin(parts, ':');
    ReadInts(parts, t);
  }

  /** Two fields are hours and minutes, three are hours, minutes and seconds. */
  lemma FieldsMean(parts: seq<string>, t: seq<int>, limit: string)
    requires ReadAs(parts, t) && (|parts| == 2 || |parts| == 3)
    requires limit == Join(parts, [':']) && '-' !in limit
    ensures ParseTimeLimit(limit) == Delta(Clocked(t))
  {
    SplitFields(parts, t);
    SignsRefuse(limit, ':');
    assert Combine(0, t[0], t[1], if |t| == 3 then t[2] else 0) == Clocked(t);
  }

  /** Before three fields and a dash stands the number of days, and the fields may have signs. */
  lemma DaysMean(days: string, d: int, parts: seq<string>, t: seq<int>, time: string)
    requires '-' !in days && PyInt(days) == Some(d)
    requires ReadAs(parts, t) && |parts| == 3 && time == Join(parts, [':'])
    ensures ParseTimeLimit(days + ['-'] + time) == Delta(Combine(d, t[0], t[1], t[2]))
  {
    SplitFields(parts, t);
    DashedParses(days, time, d, t);
  }

  /** Days, hours, minutes and seconds in seconds. */
  lemma CombineAddsUp(days: int, t: seq<int>)
    requires |t| == 3
    ensures Combine(days, t[0], t[1], t[2]) == 86400 * days + Clocked(t)
  {
  }

  /** A numeral is such a field, and a dash in front of it is a sign. */
  lemma FieldsRead(s: string, n: int)
    requires s != [] && AllDigits(s) && n == Val(s)
    ensures ReadAs([s], [n]) && ReadAs([['-'] + s], [0 - n]) && '-' !in s
  {
    PyIntDigits(s);
    StripNone(['-'] + s);
    UnderscoredPlain(s);
    NoColon(s, ':');
    NoColon(s, '-');
  }

  /** A limit can be negative: a second dash is the sign of the hours. */
  lemma NegativeLimit(zero: string, hours: string, h: int, time: string)
    requires zero != [] && AllDigits(zero) && Val(zero) == 0
    requires hours != [] && AllDigits(hours) && Val(hours) == h
    requires time == Join([['-'] + hours, zero, zero], [':'])
    ensures ParseTimeLimit(zero + ['-'] + time) == Delta(-3600 * h)
  {
    FieldsRead(zero, 0);
    FieldsRead(hours, h);
    var parts, t := [['-'] + hours, zero, zero], [0 - h, 0, 0];
    forall i | 0 <= i < 3 ensures ':' !in parts[i] && PyInt(parts[i]) == Some(t[i]) {
      assert ReadAs([zero], [0]) && ReadAs([['-'] + hours], [0 - h]);
      assert [zero][0] == zero && [['-'] + hours][0] == ['-'] + hours;
    }
    PyIntDigits(zero);
    DaysMean(zero, 0, parts, t, time);
    CombineAddsUp(0, t);
  }

  lemma {:induction false} IntsNone(parts: seq<string>)
    ensures Ints(parts) == None <==> exists i | 0 <= i < |parts| :: PyInt(parts[i]) == None
    decreases |parts|
  {
    if parts != [] {
      IntsNone(parts[1..]);
      if i :| 0 <= i < |parts[1..]| && PyInt(parts[1..][i]) == None {
        assert PyInt(parts[i + 1]) == None;
      }
      if i :| 0 <= i < |parts| && PyInt(parts[i]) == None {
        assert i > 0 ==> parts[1..][i - 1] == parts[i];
      }
    }
  }

  /** Without unit and dash a limit is refused unless it has two or three fields, all of them integers. */
  lemma ColonsRaise(limit: string)
    requires '-' !in limit && !IsAbbreviated(limit)
    requires |Split(limit, ':')| !in {2, 3} || exists i | 0 <= i < |Split(limit, ':')| :: PyInt(Split(limit, ':')[i]) == None
    ensures ParseTimeLimit(limit).Raised?
  {
    IntsNone(Split(limit, ':'));
  }
}
