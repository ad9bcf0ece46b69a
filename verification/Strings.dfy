/** The Python string operations the other modules need, and what they undo. */
module Strings {
  import opened Basics

  /** `str.isspace` and regex `\s` for one character. */
  predicate IsSpace(c: char) {
    var n := c as int;
    9 <= n <= 13 || 28 <= n <= 32 || n == 0x85 || n == 0xA0 || n == 0x1680 || 0x2000 <= n <= 0x200A
    || n == 0x2028 || n == 0x2029 || n == 0x202F || n == 0x205F || n == 0x3000
  }

  function LStrip(s: string): (r: string)
    ensures |r| <= |s| && (s != [] && !IsSpace(s[0]) ==> r == s)
  {
    if s != [] && IsSpace(s[0]) then LStrip(s[1..]) else s
  }

  function RStrip(s: string): string {
    if s != [] && IsSpace(s[|s| - 1]) then RStrip(s[..|s| - 1]) else s
  }

  function Strip(s: string): string {
    RStrip(LStrip(s))
  }

  // ----- Decimal numerals -----

  predicate IsDigit(c: char) {
    '0' <= c <= '9'
  }

  predicate AllDigits(s: string) {
    forall i | 0 <= i < |s| :: IsDigit(s[i])
  }

  function DigitOf(n: nat): (c: char)
    requires n < 10
    ensures IsDigit(c) && c as int - '0' as int == n
  {
    n as char + '0'
  }

  /** `str(n)`. */
  function Dec(n: nat): (s: string)
    ensures s != [] && AllDigits(s)
  {
    if n < 10 then [DigitOf(n)] else Dec(n / 10) + [DigitOf(n % 10)]
  }

  /** The number a numeral denotes. */
  function Val(s: string): nat
    requires AllDigits(s)
  {
    if s == [] then 0 else Val(s[..|s| - 1]) * 10 + (s[|s| - 1] as int - '0' as int)
  }

  function Zeros(n: nat): (z: string)
    ensures |z| == n && forall i | 0 <= i < n :: z[i] == '0'
  {
    seq(n, i => '0')
  }

  /** `str.zfill` on a numeral, and the format `0{width}d`. */
  function ZFill(s: string, width: nat): string {
    if |s| < width then Zeros(width - |s|) + s else s
  }

  function Pad(n: nat, width: nat): (s: string)
    ensures s != [] && AllDigits(s) && |s| >= width
  {
    ZFill(Dec(n), width)
  }

  lemma {:induction false} ValDec(n: nat)
    ensures Val(Dec(n)) == n
  {
    if n >= 10 {
      ValDec(n / 10);
      assert Dec(n)[..|Dec(n)| - 1] == Dec(n / 10);
    }
  }

  lemma {:induction false} ValZeros(k: nat, s: string)
    requires AllDigits(s)
    ensures AllDigits(Zeros(k) + s) && Val(Zeros(k) + s) == Val(s)
    decreases k + |s|
  {
    var z := Zeros(k) + s;
    if s != [] {
      assert z[..|z| - 1] == Zeros(k) + s[..|s| - 1];
      ValZeros(k, s[..|s| - 1]);
    } else if k > 0 {
      assert z[..|z| - 1] == Zeros(k - 1) + [];
      ValZeros(k - 1, []);
    }
  }

  lemma ValPad(n: nat, width: nat)
    ensures Val(Pad(n, width)) == n
  {
    ValDec(n);
    var s := Dec(n);
    if |s| < width {
      ValZeros(width - |s|, s);
    }
  }

  /** Padding a numeral's value to the numeral's length gives the numeral back, zeroes included. */
  lemma {:induction false} PadVal(s: string)
    requires s != [] && AllDigits(s)
    ensures Pad(Val(s), |s|) == s && |Dec(Val(s))| <= |s|
    decreases |s|
  {
    var front, d := s[..|s| - 1], s[|s| - 1];
    var n := Val(front);
    assert s == front + [d] && DigitOf(Val(s) % 10) == d;
    if front == [] {
      assert Zeros(0) + [d] == [d];
    } else {
      PadVal(front);
      if n > 0 {
        assert Dec(Val(s)) == Dec(n) + [d];
      } else {
        assert front == Zeros(|front| - 1) + "0" == Zeros(|front|);
      }
    }
  }

  lemma DecInjective(m: nat, n: nat)
    requires Dec(m) == Dec(n)
    ensures m == n
  {
    ValDec(m);
    ValDec(n);
  }

  // ----- int(s) -----

  /** Digits with single underscores between them. */
  function Underscored(s: string): Option<string> {
    if s == [] || !IsDigit(s[0]) then None
    else if |s| == 1 then Some(s)
    else if s[1] == '_' then
      match Underscored(s[2..]) case Some(t) => Some([s[0]] + t) case None => None
    else
      match Underscored(s[1..]) case Some(t) => Some([s[0]] + t) case None => None
  }

  lemma UnderscoredDigits(s: string)
    ensures Underscored(s).Some? ==> AllDigits(Underscored(s).value) && Underscored(s).value != []
  {
  }

  /** `int(s)` for ASCII numerals; None stands for ValueError. */
  function PyInt(s: string): Option<int> {
    var t := Strip(s);
    var negative := t != [] && t[0] == '-';
    var u := if t != [] && (t[0] == '-' || t[0] == '+') then t[1..] else t;
    match Underscored(u)
    case None => None
    case Some(d) =>
      UnderscoredDigits(u);
      var v: int := Val(d);
      Some(if negative then -v else v)
  }

  lemma {:induction false} UnderscoredPlain(s: string)
    requires s != [] && AllDigits(s)
    ensures Underscored(s) == Some(s)
    decreases |s|
  {
    if |s| > 1 {
      UnderscoredPlain(s[1..]);
      assert s == [s[0]] + s[1..];
    }
  }

  lemma PyIntDigits(s: string)
    requires s != [] && AllDigits(s)
    ensures PyInt(s) == Some(Val(s))
  {
    UnderscoredPlain(s);
    StripNone(s);
  }

  lemma StripNone(s: string)
    requires s == [] || (!IsSpace(s[0]) && !IsSpace(s[|s| - 1]))
    ensures Strip(s) == s
  {
  }

  // ----- split and join -----

  /** `s.split(c)`. */
  function Split(s: string, c: char): (parts: seq<string>)
    ensures parts != []
    ensures forall i | 0 <= i < |parts| :: c !in parts[i]
  {
    if s == [] then [[]]
    else
      var rest := Split(s[1..], c);
      if s[0] == c then [[]] + rest else [[s[0]] + rest[0]] + rest[1..]
  }

  /** `sep.join(parts)`. */
  function Join(parts: seq<string>, sep: string): string {
    if parts == [] then []
    else if |parts| == 1 then parts[0]
    else parts[0] + sep + Join(parts[1..], sep)
  }

  lemma {:induction false} SplitNone(s: string, c: char)
    requires c !in s
    ensures Split(s, c) == [s]
    decreases |s|
  {
    if s != [] {
      SplitNone(s[1..], c);
      assert s == [s[0]] + s[1..];
    }
  }

  lemma {:induction false} SplitFirst(a: string, c: char, b: string)
    requires c !in a
    ensures Split(a + [c] + b, c) == [a] + Split(b, c)
    decreases |a|
  {
    var s := a + [c] + b;
    if a == [] {
      assert s[1..] == b;
    } else {
      SplitFirst(a[1..], c, b);
      assert s[1..] == a[1..] + [c] + b && a == [a[0]] + a[1..];
    }
  }

  /** Splitting undoes joining. */
  lemma {:induction false} SplitJoin(parts: seq<string>, c: char)
    requires parts != [] && forall i | 0 <= i < |parts| :: c !in parts[i]
    ensures Split(Join(parts, [c]), c) == parts
    decreases |parts|
  {
    if |parts| == 1 {
      SplitNone(parts[0], c);
    } else {
      SplitJoin(parts[1..], c);
      SplitFirst(parts[0], c, Join(parts[1..], [c]));
    }
  }

  /** `s.replace(c, "")`. */
  function Without(s: string, c: char): string {
    if s == [] then [] else if s[0] == c then Without(s[1..], c) else [s[0]] + Without(s[1..], c)
  }

  lemma {:induction false} WithoutNone(s: string, c: char, tail: string)
    requires c !in s
    ensures Without(s + tail, c) == s + Without(tail, c)
    decreases |s|
  {
    if s == [] {
      assert s + tail == tail;
    } else {
      WithoutNone(s[1..], c, tail);
      assert (s + tail)[1..] == s[1..] + tail;
    }
  }

  // ----- What int(s) accepts -----

  predicate NumeralAt(s: string, i: nat)
    requires i < |s|
  {
    IsDigit(s[i]) || (s[i] == '_' && i + 1 < |s| && IsDigit(s[i + 1]))
  }

  /** Digits at both ends, and after an underscore a digit. */
  predicate Numeral(s: string) {
    s != [] && IsDigit(s[0]) && forall i | 0 <= i < |s| :: NumeralAt(s, i)
  }

  lemma NumeralTail(s: string, k: nat)
    requires (k == 1 || k == 2) && |s| > k
    requires IsDigit(s[0]) && IsDigit(s[k]) && (k == 2 ==> s[1] == '_')
    ensures Numeral(s) <==> Numeral(s[k..])
  {
    var t := s[k..];
    forall i: nat | k <= i < |s| ensures NumeralAt(s, i) <==> NumeralAt(t, i - k) {
      assert i + 1 < |s| ==> s[i + 1] == t[i + 1 - k];
    }
    if Numeral(s) {
      forall i: nat | i < |t| ensures NumeralAt(t, i) {
        assert NumeralAt(s, i + k);
      }
    }
    if Numeral(t) {
      forall i: nat | i < |s| ensures NumeralAt(s, i) {
        assert i >= k ==> NumeralAt(t, i - k);
      }
    }
  }

  lemma {:induction false} UnderscoredIff(s: string)
    ensures Underscored(s) == if Numeral(s) then Some(Without(s, '_')) else None
    decreases |s|
  {
    if s != [] && IsDigit(s[0]) {
      assert Without(s, '_') == [s[0]] + Without(s[1..], '_');
      if |s| == 1 {
        assert s[1..] == [] && Without([], '_') == [];
        assert s == [s[0]] && Without(s, '_') == s && NumeralAt(s, 0);
      } else {
        var k := if s[1] == '_' then 2 else 1;
        UnderscoredIff(s[k..]);
        assert s[1] == '_' ==> s[1..][1..] == s[2..] && s[1..][0] == '_';
        if |s| > k && IsDigit(s[k]) {
          NumeralTail(s, k);
        } else {
          assert !NumeralAt(s, 1);
        }
      }
    }
  }

  /** With or without a sign a numeral denotes the number of its digits. */
  lemma PyIntReads(s: string, n: int)
    requires Numeral(s) && AllDigits(Without(s, '_')) && n == Val(Without(s, '_'))
    ensures PyInt(s) == Some(n)
    ensures PyInt(['+'] + s) == Some(n)
    ensures PyInt(['-'] + s) == Some(0 - n)
  {
    UnderscoredIff(s);
    assert NumeralAt(s, |s| - 1) && !IsSpace(s[|s| - 1]);
    StripNone(s);
    SignedReads('+', s, Without(s, '_'));
    SignedReads('-', s, Without(s, '_'));
  }

  lemma SignedReads(c: char, s: string, d: string)
    requires (c == '+' || c == '-') && s != [] && !IsSpace(s[|s| - 1]) && AllDigits(d) && Underscored(s) == Some(d)
    ensures PyInt([c] + s) == Some(if c == '-' then 0 - Val(d) else Val(d))
  {
    StripNone([c] + s);
    assert ([c] + s)[1..] == s;
  }

  /** What is no numeral, and has no space around it and no sign, is refused. */
  lemma PyIntRefuses(s: string)
    requires !Numeral(s) && s != [] && s[0] !in "+-" && !IsSpace(s[0]) && !IsSpace(s[|s| - 1])
    ensures PyInt(s) == None
  {
    UnderscoredIff(s);
    StripNone(s);
  }
}
