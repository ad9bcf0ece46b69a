/** Two numeral widths under one prefix: what the round trip makes of them. */
module NodeListMixed {
  import opened Basics
  import opened Strings
  import opened Sorting
  import opened NodeList
  import opened NodeListTrip

  function Mixed(): seq<string> { ["n-1", "n-02"] }

  lemma ShortPart()
    ensures ExtractParts("n-1") == Some(Part("n-", 1, 1))
  {
    var a := "n-1";
    assert a[..2] == "n-" && a[2..] == "1" && "1"[..0] == [];
    assert TailDigits("n-") == 0;
    assert TailDigits(a) == 1;
    assert Val("1") == 1;
  }

  lemma LongPart()
    ensures ExtractParts("n-02") == Some(Part("n-", 2, 2))
  {
    var b := "n-02";
    assert b[..3][..2] == "n-" && b[..2] == "n-" && b[2..] == "02" && "02"[..1] == "0" && "0"[..0] == [];
    assert TailDigits("n-") == 0;
    assert TailDigits(b[..3]) == 1;
    assert TailDigits(b) == 2;
    assert Val("0") == 0;
    assert Val("02") == 2;
  }

  lemma TwoParts(x: Part, y: Part)
    requires x.prefix == y.prefix
    ensures GroupsOf([x, y]) == [Group(x.prefix, [x.num, y.num], Max(x.width, y.width))]
  {
    OneMore([], x, x.prefix);
    assert [] + [x] == [x];
    OneMore([x], y, x.prefix);
    assert [x] + [y] == [x, y];
    assert Prefixes([x]) == [x.prefix] && Nums([x], x.prefix) == [x.num] && Width([x], x.prefix) == x.width;
    assert [x.num] + [y.num] == [x.num, y.num];
  }

  lemma TwoNames(prefix: string, m: nat, n: nat, width: nat)
    requires m <= n
    ensures GroupNamesOf([Group(prefix, [m, n], width)]) == [prefix + Pad(m, width), prefix + Pad(n, width)]
  {
    var g, nums := Group(prefix, [m, n], width), [m, n];
    assert nums[1..] == [n] && [n][1..] == [];
    assert Sorted([n], NatLe) == [n];
    assert Sorted(nums, NatLe) == nums;
    assert Names(prefix, nums, width) == [prefix + Pad(m, width), prefix + Pad(n, width)];
    assert [g][1..] == [];
  }

  lemma Clear(prefix: string, digits: string)
    requires Clean(prefix) && prefix != [] && prefix[|prefix| - 1] == '-' && digits != [] && AllDigits(digits)
    ensures Plain(prefix + digits)
  {
    var name := prefix + digits;
    assert name[..|prefix|] == prefix && name[|prefix|..] == digits;
    assert SplitsAt(name, |prefix|);
  }

  lemma PaddedDigits()
    ensures Pad(1, 2) == "01" && Pad(2, 2) == "02"
  {
    assert Zeros(1) == "0" && Dec(1) == "1" && Dec(2) == "2";
  }

  lemma MixedPlain()
    ensures AllPlain(Mixed())
  {
    Clear("n-", "1");
    Clear("n-", "02");
    assert "n-" + "1" == Mixed()[0] && "n-" + "02" == Mixed()[1];
  }

  lemma MixedParts()
    ensures Extractable(Mixed()) && PartsOf(Mixed()) == [Part("n-", 1, 1), Part("n-", 2, 2)]
  {
    ShortPart();
    LongPart();
  }

  lemma MixedCanonical()
    ensures Extractable(Mixed()) && Canonical(Mixed()) == ["n-" + "01", "n-" + "02"]
  {
    MixedParts();
    TwoParts(Part("n-", 1, 1), Part("n-", 2, 2));
    TwoNames("n-", 1, 2, 2);
    PaddedDigits();
  }

  /** "n-1" and "n-02" come back as "n-01" and "n-02". */
  lemma MixedWidthsArePadded()
    ensures AllPlain(Mixed()) && Extractable(Mixed()) && Parsed(Formatted(Mixed())) == Ok(["n-" + "01", "n-" + "02"])
  {
    MixedPlain();
    MixedCanonical();
    ParseFormat(Mixed());
  }
}
