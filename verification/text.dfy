/** Byte-string helpers the parsers and formatters share: digits, ASCII
    case folding and white space, substring search, and Go's
    `strings.Split` / `strings.Join` with their inverse relationship. */
module Text {
  import opened Base

  predicate IsDigit(c: char) { '0' <= c <= '9' }

  predicate AllDigits(s: Str) { forall i | 0 <= i < |s| :: IsDigit(s[i]) }

  /** The ASCII white space Go's `strings.TrimSpace` removes: space, tab,
      newline, carriage return, vertical tab (11) and form feed (12). */
  predicate IsSpace(c: char) {
    c == ' ' || c == '\t' || c == '\n' || c == '\r' || c as int == 11 || c as int == 12
  }

  function DigitChar(d: nat): (c: char)
    requires d < 10
    ensures IsDigit(c)
  {
    ('0' as int + d) as char
  }

  function DigitVal(c: char): (d: nat)
    requires IsDigit(c)
    ensures d < 10 && DigitChar(d) == c
  {
    c as int - '0' as int
  }

  /** The number a string of decimal digits denotes, most significant digit
      first (leading zeros allowed). */
  function DecimalValue(s: Str): nat
    requires AllDigits(s)
  {
    if s == [] then 0 else DecimalValue(s[..|s| - 1]) * 10 + DigitVal(s[|s| - 1])
  }

  lemma DecimalValueSnoc(s: Str, c: char)
    requires AllDigits(s) && IsDigit(c)
    ensures AllDigits(s + [c]) && DecimalValue(s + [c]) == DecimalValue(s) * 10 + DigitVal(c)
  {
    assert (s + [c])[..|s|] == s;
  }

  /** ASCII upper case to lower case; every other byte is kept. */
  function LowerChar(c: char): char {
    if 'A' <= c <= 'Z' then (c as int + 32) as char else c
  }

  function Lower(s: Str): (r: Str)
    ensures |r| == |s|
    ensures forall i | 0 <= i < |s| :: r[i] == LowerChar(s[i])
  {
    seq(|s|, i requires 0 <= i < |s| => LowerChar(s[i]))
  }

  /** `sub` sits in `s` starting at offset `i`. */
  predicate OccursAt(s: Str, sub: Str, i: int) {
    0 <= i <= |s| - |sub| && s[i..i + |sub|] == sub
  }

  /** `sub` occurs in `s` at some offset (Go's `strings.Contains`). */
  predicate Contains(s: Str, sub: Str) {
    exists i | 0 <= i <= |s| - |sub| :: OccursAt(s, sub, i)
  }

  /** Everything of `s` outside the window `[i, j)` is white space. */
  predicate SpaceOutside(s: Str, i: int, j: int) {
    (forall k | 0 <= k < i && k < |s| :: IsSpace(s[k]))
    && (forall k | 0 <= j <= k < |s| :: IsSpace(s[k]))
  }

  /** Number of white-space bytes at the front of `s`. */
  function LeadingSpaces(s: Str): (n: nat)
    ensures n <= |s|
    ensures forall i | 0 <= i < n :: IsSpace(s[i])
    ensures n < |s| ==> !IsSpace(s[n])
  {
    if s == [] || !IsSpace(s[0]) then 0
    else
      var n := 1 + LeadingSpaces(s[1..]);
      assert forall i | 1 <= i < n :: s[i] == s[1..][i - 1];
      n
  }

  /** Index where the run of white space at the end of `s` begins. */
  function TrailingStart(s: Str): (n: nat)
    ensures n <= |s|
    ensures forall i | n <= i < |s| :: IsSpace(s[i])
    ensures n > 0 ==> !IsSpace(s[n - 1])
  {
    if s == [] || !IsSpace(s[|s| - 1]) then |s|
    else TrailingStart(s[..|s| - 1])
  }

  /** Go's `strings.TrimSpace` restricted to ASCII white space. */
  function TrimSpace(s: Str): (r: Str)
    ensures r == [] ==> forall k | 0 <= k < |s| :: IsSpace(s[k])
    ensures r != [] ==> !IsSpace(r[0]) && !IsSpace(r[|r| - 1])
    ensures r != [] ==> exists i | 0 <= i <= |s| - |r| ::
      OccursAt(s, r, i) && SpaceOutside(s, i, i + |r|)
  {
    var a := LeadingSpaces(s);
    var t := s[a..];
    var b := TrailingStart(t);
    TrailingSpace(s, a, b);
    TrimmedWindow(s, a, b);
    t[..b]
  }

  /** The window left between the leading and the trailing white space. */
  lemma TrimmedWindow(s: Str, a: nat, b: nat)
    requires a + b <= |s|
    requires forall k | 0 <= k < a :: IsSpace(s[k])
    requires forall k | a + b <= k < |s| :: IsSpace(s[k])
    ensures b == 0 ==> forall k | 0 <= k < |s| :: IsSpace(s[k])
    ensures b > 0 ==> OccursAt(s, s[a..][..b], a) && SpaceOutside(s, a, a + b)
  {
    if b > 0 {
      assert s[a..a + b] == s[a..][..b];
    }
  }

  /** Everything from the end of the window on is white space. */
  lemma TrailingSpace(s: Str, a: nat, b: nat)
    requires a <= |s| && b == TrailingStart(s[a..])
    ensures a + b <= |s|
    ensures forall k | a + b <= k < |s| :: IsSpace(s[k])
  {
    var t := s[a..];
    forall k | a + b <= k < |s| ensures IsSpace(s[k]) {
      assert s[k] == t[k - a];
    }
  }

  /** A string with no white space at either end is its own trimming. */
  lemma TrimSpaceTrimmed(s: Str)
    requires s == [] || (!IsSpace(s[0]) && !IsSpace(s[|s| - 1]))
    ensures TrimSpace(s) == s
  {
  }

  /** Position of the first occurrence of `c`. */
  function FirstIndex(s: Str, c: char): (i: nat)
    requires c in s
    ensures i < |s| && s[i] == c && c !in s[..i]
  {
    if s[0] == c then 0
    else
      var i := 1 + FirstIndex(s[1..], c);
      assert s[..i] == [s[0]] + s[1..][..i - 1];
      i
  }

  lemma FirstIndexOfJoin(a: Str, c: char, b: Str)
    requires c !in a
    ensures c in a + [c] + b && FirstIndex(a + [c] + b, c) == |a|
  {
    assert (a + [c] + b)[|a|] == c;
  }

  /** Position of the last occurrence of `c`. */
  function LastIndex(s: Str, c: char): (i: nat)
    requires c in s
    ensures i < |s| && s[i] == c && c !in s[i + 1..]
    decreases |s|
  {
    if s[|s| - 1] == c then |s| - 1
    else
      var i := LastIndex(s[..|s| - 1], c);
      assert s[i + 1..] == s[..|s| - 1][i + 1..] + [s[|s| - 1]];
      i
  }

  lemma LastIndexOfJoin(a: Str, c: char, b: Str)
    requires c !in b
    ensures c in a + [c] + b && LastIndex(a + [c] + b, c) == |a|
  {
    var s := a + [c] + b;
    assert s[|a|] == c;
    assert s[|a| + 1..] == b;
  }

  /** The middle of a framed text is what was framed. */
  lemma Framed(p: Str, x: Str, q: Str)
    ensures var t := p + (x + q);
      |t| == |p| + |x| + |q| && t[..|p|] == p && t[|t| - |q|..] == q && t[|p|..|t| - |q|] == x
  {
  }

  /** Go's `strings.Split` with a one-byte separator: the pieces between
      occurrences of `c`, never fewer than one. */
  function Split(s: Str, c: char): (r: seq<Str>)
    ensures |r| >= 1
    ensures forall k | 0 <= k < |r| :: c !in r[k]
    decreases |s|
  {
    if c in s then
      var i := FirstIndex(s, c);
      [s[..i]] + Split(s[i + 1..], c)
    else [s]
  }

  /** Go's `strings.Join`: the parts with `sep` between neighbours. */
  function Join(parts: seq<Str>, sep: Str): Str
  {
    if |parts| == 0 then []
    else if |parts| == 1 then parts[0]
    else parts[0] + sep + Join(parts[1..], sep)
  }

  /** Joins of one, two and three parts, unfolded. */
  lemma Join123(x: Str, y: Str, z: Str, sep: Str)
    ensures Join([x], sep) == x
    ensures Join([x, y], sep) == x + (sep + y)
    ensures Join([x, y, z], sep) == x + (sep + (y + (sep + z)))
  {
    Join2(x, y, sep);
    Join2(y, z, sep);
    Join3(x, y, z, sep);
  }

  lemma Join2(x: Str, y: Str, sep: Str)
    ensures Join([x, y], sep) == x + (sep + y)
  {
    assert [x, y][1..] == [y];
    assert x + sep + y == x + (sep + y);
  }

  lemma Join3(x: Str, y: Str, z: Str, sep: Str)
    requires Join([y, z], sep) == y + (sep + z)
    ensures Join([x, y, z], sep) == x + (sep + (y + (sep + z)))
  {
    assert [x, y, z][1..] == [y, z];
    var rest := y + (sep + z);
    assert x + sep + rest == x + (sep + rest);
  }

  lemma {:induction false} JoinSnoc(parts: seq<Str>, p: Str, sep: Str)
    requires |parts| >= 1
    ensures Join(parts + [p], sep) == Join(parts, sep) + sep + p
    decreases |parts|
  {
    if |parts| == 1 {
      assert parts + [p] == [parts[0], p];
      assert [parts[0], p][1..] == [p];
    } else {
      assert (parts + [p])[1..] == parts[1..] + [p];
      JoinSnoc(parts[1..], p, sep);
    }
  }

  /** Splitting at the first separator peels off the text before it. */
  lemma SplitCons(a: Str, c: char, b: Str)
    requires c !in a
    ensures Split(a + [c] + b, c) == [a] + Split(b, c)
  {
    var s := a + [c] + b;
    FirstIndexOfJoin(a, c, b);
    assert s[..|a|] == a;
    assert s[|a| + 1..] == b;
  }

  /** Splitting a joined list at a separator that no part contains gives
      the parts back. */
  lemma {:induction false} SplitJoin(parts: seq<Str>, c: char)
    requires |parts| >= 1
    requires forall k | 0 <= k < |parts| :: c !in parts[k]
    ensures Split(Join(parts, [c]), c) == parts
    decreases |parts|
  {
    if |parts| > 1 {
      var rest := Join(parts[1..], [c]);
      assert Join(parts, [c]) == parts[0] + [c] + rest;
      SplitCons(parts[0], c, rest);
      SplitJoin(parts[1..], c);
      assert parts == [parts[0]] + parts[1..];
    }
  }

  /** Joining the pieces of a split with the separator restores the string. */
  lemma {:induction false} JoinSplit(s: Str, c: char)
    ensures Join(Split(s, c), [c]) == s
    decreases |s|
  {
    if c in s {
      var i := FirstIndex(s, c);
      JoinSplit(s[i + 1..], c);
      var r := Split(s[i + 1..], c);
      assert Split(s, c) == [s[..i]] + r;
      assert ([s[..i]] + r)[1..] == r;
      assert s == s[..i] + [c] + s[i + 1..];
    }
  }

  /** Go's `joinStrings` helper (parser.go), written as the source writes
      it: a loop that appends the separator before every part but the
      first. */
  method JoinStrings(parts: seq<Str>, sep: Str) returns (r: Str)
    ensures r == Join(parts, sep)
  {
    if |parts| == 0 {
      return [];
    }
    r := parts[0];
    var i := 1;
    while i < |parts|
      invariant 1 <= i <= |parts|
      invariant r == Join(parts[..i], sep)
    {
      JoinSnoc(parts[..i], parts[i], sep);
      assert parts[..i + 1] == parts[..i] + [parts[i]];
      r := r + sep + parts[i];
      i := i + 1;
    }
    assert parts[..|parts|] == parts;
  }
}
