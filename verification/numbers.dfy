/** `formatNumber` of the statistics view (internal/ui/view.go and its twin
    in internal/tui/view.go): the `%d` text of a number with a comma put
    before every position whose distance from the end is a multiple of
    three. The reference definition groups the text into chunks of three
    from the right; the loop is proved to produce exactly that. Because the
    loop also counts a leading minus sign as a digit, a negative number
    whose digit count is a multiple of three gets a comma right after its
    sign; `FormatNumberFixed` is the grouping the code evidently intends. */
module Numbers {
  import opened Base
  import opened Text
  import opened Decimal

  /** The text cut into chunks of three from the right; the first chunk
      holds what is left over. */
  function Chunks(s: Str): (cs: seq<Str>)
    ensures |cs| >= 1
    decreases |s|
  {
    if |s| <= 3 then [s] else Chunks(s[..|s| - 3]) + [s[|s| - 3..]]
  }

  /** The text with its chunks separated by commas. */
  function Grouped(s: Str): Str { Join(Chunks(s), ",") }

  /** The chunks of a text: the first holds one to three bytes (as many as
      the length leaves over modulo three), every later one exactly three,
      and together they spell the text. */
  lemma {:induction false} ChunksShape(s: Str)
    requires |s| >= 1
    ensures var cs := Chunks(s);
      |cs[0]| == (|s| - 1) % 3 + 1
      && (forall i | 1 <= i < |cs| :: |cs[i]| == 3)
      && Join(cs, "") == s
    decreases |s|
  {
    var cs := Chunks(s);
    if |s| > 3 {
      var a, b := s[..|s| - 3], s[|s| - 3..];
      ChunksShape(a);
      var ca := Chunks(a);
      assert cs == ca + [b];
      assert cs[0] == ca[0];
      assert forall i | 1 <= i < |ca| :: cs[i] == ca[i];
      JoinSnoc(ca, b, "");
      assert a + "" + b == s;
    }
  }

  /** Every byte of a chunk comes from the text. */
  lemma {:induction false} ChunksFrom(s: Str)
    ensures forall i, c | 0 <= i < |Chunks(s)| && c in Chunks(s)[i] :: c in s
    decreases |s|
  {
    if |s| > 3 {
      var a, b := s[..|s| - 3], s[|s| - 3..];
      ChunksFrom(a);
      var cs := Chunks(s);
      assert cs == Chunks(a) + [b];
      forall i, c | 0 <= i < |cs| && c in cs[i]
        ensures c in s
      {
        if i < |Chunks(a)| {
          assert cs[i] == Chunks(a)[i];
          assert c in a;
        } else {
          assert c in b;
        }
      }
    }
  }

  /** Splitting a grouped number at its commas gives back its chunks. */
  lemma GroupedSplit(s: Str)
    requires ',' !in s
    ensures Split(Grouped(s), ',') == Chunks(s)
  {
    ChunksFrom(s);
    SplitJoin(Chunks(s), ',');
  }

  /** The text the loop of `formatNumber` builds from `s`, given the full
      length `n`: each byte, preceded by a comma when it is not the first
      and its distance `n - k` from the end is a multiple of three. */
  function Marked(s: Str, n: int): Str
    decreases |s|
  {
    if s == [] then []
    else
      var k := |s| - 1;
      Marked(s[..k], n) + (if k > 0 && (n - k) % 3 == 0 then [',', s[k]] else [s[k]])
  }

  /** Marking depends on the length only modulo three. */
  lemma {:induction false} MarkedMod(s: Str, n: int, m: int)
    requires n % 3 == m % 3
    ensures Marked(s, n) == Marked(s, m)
    decreases |s|
  {
    if s != [] {
      var k := |s| - 1;
      MarkedMod(s[..k], n, m);
      assert (n - k) % 3 == (m - k) % 3;
    }
  }

  /** Marking three more bytes adds a comma in front of them only. */
  lemma MarkedThree(a: Str, b: Str, n: int)
    requires |a| >= 1 && |b| == 3 && n == |a| + 3
    ensures Marked(a + b, n) == Marked(a, n) + ([','] + b)
  {
    var s := a + b;
    var k := |a|;
    assert s[..k + 2][..k + 1] == s[..k + 1];
    assert s[..k + 1][..k] == a;
    assert s[..k + 3] == s;
    assert s[..k + 3][..k + 2] == s[..k + 2];
    assert (n - k - 1) % 3 != 0 && (n - k - 2) % 3 != 0 && (n - k) % 3 == 0;
    assert Marked(s[..k + 1], n) == Marked(a, n) + [',', b[0]];
    assert Marked(s[..k + 2], n) == Marked(a, n) + [',', b[0]] + [b[1]];
    assert Marked(s, n) == Marked(a, n) + [',', b[0]] + [b[1]] + [b[2]];
    assert [',', b[0]] + [b[1]] + [b[2]] == [','] + b;
  }

  /** Up to three bytes get no comma. */
  lemma {:induction false} MarkedShort(s: Str, n: int)
    requires |s| <= n <= 3
    ensures Marked(s, n) == s
  {
    if s != [] {
      var k := |s| - 1;
      MarkedShort(s[..k], n);
      assert s[..k] + [s[k]] == s;
    }
  }

  /** One more byte of the loop. */
  lemma MarkedStep(s: Str, i: nat, n: int)
    requires i < |s|
    ensures Marked(s[..i + 1], n)
      == Marked(s[..i], n) + (if i > 0 && (n - i) % 3 == 0 then [',', s[i]] else [s[i]])
  {
    assert s[..i + 1][..i] == s[..i];
  }

  /** The loop's marking is the chunk grouping. */
  lemma {:induction false} MarkedGrouped(s: Str)
    requires |s| >= 1
    ensures Marked(s, |s|) == Grouped(s)
    decreases |s|
  {
    if |s| <= 3 {
      MarkedShort(s, |s|);
    } else {
      var a, b := s[..|s| - 3], s[|s| - 3..];
      assert a + b == s;
      MarkedThree(a, b, |s|);
      MarkedMod(a, |s|, |a|);
      MarkedGrouped(a);
      JoinSnoc(Chunks(a), b, ",");
    }
  }

  /** The loop of `formatNumber`, written as the source writes it: the
      text copied byte by byte with a comma before every byte, other than
      the first, whose distance from the end is a multiple of three. */
  method InsertCommas(s: Str) returns (r: Str)
    ensures r == Grouped(s)
  {
    r := [];
    var i := 0;
    while i < |s|
      invariant 0 <= i <= |s|
      invariant r == Marked(s[..i], |s|)
    {
      MarkedStep(s, i, |s|);
      if i > 0 && (|s| - i) % 3 == 0 {
        r := r + [','];
      }
      r := r + [s[i]];
      i := i + 1;
    }
    assert s[..|s|] == s;
    if s == [] {
      assert Grouped(s) == [];
    } else {
      MarkedGrouped(s);
    }
  }

  /** `formatNumber`: the `%d` text as is up to three bytes, otherwise with
      its commas inserted. */
  method FormatNumber(n: int) returns (r: Str)
    ensures r == Grouped(Itoa(n))
    ensures |Itoa(n)| <= 3 ==> r == Itoa(n)
  {
    var s := Itoa(n);
    if |s| <= 3 {
      MarkedShort(s, |s|);
      MarkedGrouped(s);
      return s;
    }
    r := InsertCommas(s);
  }

  /** The digits of a non-negative number, grouped: removing the commas
      gives its decimal text back, the first group holds one to three
      digits and every later group exactly three. */
  lemma GroupedNonNegative(n: int)
    requires n >= 0
    ensures var gs := Split(Grouped(Itoa(n)), ',');
      Join(gs, "") == Itoa(n) && 1 <= |gs[0]| <= 3 && forall i | 1 <= i < |gs| :: |gs[i]| == 3
  {
    var s := Itoa(n);
    assert forall k | 0 <= k < |s| :: s[k] != ',';
    GroupedSplit(s);
    ChunksShape(s);
  }

  /** The sign is grouped like a digit: a negative number whose digit
      count is a multiple of three gets a comma right after its minus
      sign. */
  lemma GroupedSignComma(n: int)
    requires n < 0 && |FormatInt(-n)| % 3 == 0
    ensures |Grouped(Itoa(n))| >= 2 && Grouped(Itoa(n))[0] == '-' && Grouped(Itoa(n))[1] == ','
  {
    var s := Itoa(n);
    ChunksShape(s);
    var cs := Chunks(s);
    assert |cs[0]| == 1;
    assert |cs| > 1;
    assert Join(cs, ",") == cs[0] + "," + Join(cs[1..], ",");
    assert cs[0] == s[..1] by {
      assert Join(cs, "") == cs[0] + "" + Join(cs[1..], "");
    }
  }

  lemma Text123()
    ensures Itoa(-123) == "-123"
  {
    assert PositiveDigits(0) == [];
    assert PositiveDigits(1) == "1";
    assert PositiveDigits(12) == "12";
  }

  lemma ChunksMinus123()
    ensures Chunks("-123") == ["-", "123"]
  {
    assert "-123"[..1] == "-" && "-123"[1..] == "123";
  }

  lemma JoinMinus123()
    ensures Join(["-", "123"], ",") == "-,123"
  {
    Join123("-", "123", "", ",");
  }

  /** The smallest case: minus one hundred twenty-three. */
  lemma GroupedMinus123()
    ensures Grouped(Itoa(-123)) == "-,123"
  {
    Text123();
    ChunksMinus123();
    JoinMinus123();
  }

  /** The grouping evidently intended: the sign stays in front, and only
      the digits are grouped. */
  function FormatNumberFixed(n: int): Str {
    if n < 0 then "-" + Grouped(FormatInt(-n)) else Grouped(FormatInt(n))
  }

  /** The fixed grouping never puts a comma right after the sign, removing
      its commas gives the `%d` text back, and its digit groups are shaped
      as for a non-negative number. */
  lemma FormatNumberFixedMeaning(n: int)
    ensures var r := FormatNumberFixed(n);
      var digits := if n < 0 then r[1..] else r;
      var gs := Split(digits, ',');
      r[0] == '-' ==> r[1] != ','
    ensures var r := FormatNumberFixed(n);
      var digits := if n < 0 then r[1..] else r;
      var gs := Split(digits, ',');
      (if n < 0 then "-" + Join(gs, "") else Join(gs, "")) == Itoa(n)
      && 1 <= |gs[0]| <= 3 && forall i | 1 <= i < |gs| :: |gs[i]| == 3
  {
    var m := if n < 0 then -n else n;
    GroupedNonNegative(m);
    var s := FormatInt(m);
    ChunksShape(s);
    var cs := Chunks(s);
    if |cs| > 1 {
      assert Grouped(s) == cs[0] + "," + Join(cs[1..], ",");
    }
    assert Grouped(s)[0] == cs[0][0];
    assert cs[0][0] == s[0] by {
      if |cs| > 1 {
        assert Join(cs, "") == cs[0] + "" + Join(cs[1..], "");
      }
    }
  }
}
