/** The three duration formatters of the viewer: `formatSeconds`
    (internal/redis/parser.go), `formatTTLSeconds` (the value pane) and
    `formatUptime` (the statistics view). Each writes a few space-separated
    parts such as `2d` or `05m`; `Read` takes such text apart again, so the
    lemmas state what each formatter's output means rather than how it is
    assembled. */
module Durations {
  import opened Base
  import opened Text
  import opened Decimal

  /** One printed part such as `05m`: how many units it counts, how many
      digits it is written with (zero-padded on the left), and its unit
      letter. */
  datatype Part = Part(amount: nat, width: nat, unit: char)

  /** Number of decimal digits of a natural number; zero has one. */
  function DigitCount(n: nat): (c: nat)
    ensures c >= 1
  {
    if n < 10 then 1 else 1 + DigitCount(n / 10)
  }

  lemma TwoDigits(n: nat)
    requires n < 100
    ensures DigitCount(n) <= 2
  {
    if n >= 10 {
      assert DigitCount(n / 10) == 1;
    }
  }

  lemma {:induction false} PositiveDigitsLength(n: nat)
    requires n > 0
    ensures |PositiveDigits(n)| == DigitCount(n)
    decreases n
  {
    if n >= 10 {
      PositiveDigitsLength(n / 10);
    }
  }

  lemma FormatIntLength(n: nat)
    ensures |FormatInt(n)| == DigitCount(n)
  {
    if n > 0 {
      PositiveDigitsLength(n);
    }
  }

  /** `k` zero digits. */
  function Zeros(k: nat): Str {
    if k == 0 then [] else Zeros(k - 1) + ['0']
  }

  lemma {:induction false} ZerosValue(k: nat)
    ensures |Zeros(k)| == k && AllDigits(Zeros(k)) && DecimalValue(Zeros(k)) == 0
  {
    if k > 0 {
      ZerosValue(k - 1);
      DecimalValueSnoc(Zeros(k - 1), '0');
    }
  }

  /** Zeros in front of a number do not change its value. */
  lemma {:induction false} LeadingZeros(k: nat, s: Str)
    requires AllDigits(s)
    ensures AllDigits(Zeros(k) + s) && DecimalValue(Zeros(k) + s) == DecimalValue(s)
    decreases |s|
  {
    ZerosValue(k);
    if s == [] {
      assert Zeros(k) + s == Zeros(k);
    } else {
      var init := s[..|s| - 1];
      LeadingZeros(k, init);
      DecimalValueSnoc(Zeros(k) + init, s[|s| - 1]);
      DecimalValueSnoc(init, s[|s| - 1]);
      assert Zeros(k) + init + [s[|s| - 1]] == Zeros(k) + s;
      assert init + [s[|s| - 1]] == s;
    }
  }

  /** `f` padded on the left with zeros to at least `w` bytes, as Go's
      `%0wd` pads. */
  function PadZeros(f: Str, w: nat): Str {
    if |f| >= w then f else Zeros(w - |f|) + f
  }

  /** Padding keeps the digits' value and reaches the requested width. */
  lemma PadZerosValue(f: Str, w: nat)
    requires AllDigits(f)
    ensures AllDigits(PadZeros(f, w)) && DecimalValue(PadZeros(f, w)) == DecimalValue(f)
    ensures |PadZeros(f, w)| == if |f| >= w then |f| else w
  {
    if |f| < w {
      var z := Zeros(w - |f|);
      assert PadZeros(f, w) == z + f;
      ZerosValue(w - |f|);
      LeadingZeros(w - |f|, f);
      assert |z + f| == w;
    }
  }

  /** The digits of a part: its amount in decimal, zero-padded on the left
      to its width. */
  function DigitsText(p: Part): Str { PadZeros(FormatInt(p.amount), p.width) }

  /** The digits of a part denote its amount, and a part wide enough for
      its amount is written with exactly its width. */
  lemma DigitsTextValue(p: Part)
    ensures AllDigits(DigitsText(p)) && DecimalValue(DigitsText(p)) == p.amount
    ensures p.width >= DigitCount(p.amount) ==> |DigitsText(p)| == p.width
  {
    FormatIntLength(p.amount);
    PadZerosValue(FormatInt(p.amount), p.width);
  }

  /** A part that prints as it reads: wide enough for its amount, with a
      unit letter that is neither a digit nor a space. */
  predicate WellFormedPart(p: Part) {
    p.width >= DigitCount(p.amount) && !IsDigit(p.unit) && p.unit != ' '
  }

  function PartText(p: Part): Str { DigitsText(p) + [p.unit] }

  function PartTexts(ps: seq<Part>): (r: seq<Str>)
    ensures |r| == |ps| && forall i | 0 <= i < |ps| :: r[i] == PartText(ps[i])
  {
    seq(|ps|, i requires 0 <= i < |ps| => PartText(ps[i]))
  }

  /** The text of a duration: its parts separated by single spaces. */
  function Render(ps: seq<Part>): Str { Join(PartTexts(ps), " ") }

  /** Reads one space-free piece as digits followed by a unit letter. */
  function ReadPart(piece: Str): Option<Part> {
    if |piece| >= 2 && AllDigits(piece[..|piece| - 1])
       && !IsDigit(piece[|piece| - 1]) && piece[|piece| - 1] != ' '
    then Some(Part(DecimalValue(piece[..|piece| - 1]), |piece| - 1, piece[|piece| - 1]))
    else None
  }

  function ReadParts(pieces: seq<Str>): Option<seq<Part>> {
    if pieces == [] then Some([])
    else
      match (ReadPart(pieces[0]), ReadParts(pieces[1..]))
      case (Some(p), Some(ps)) => Some([p] + ps)
      case _ => None
  }

  /** Takes a duration text apart at its spaces. */
  function Read(s: Str): Option<seq<Part>> { ReadParts(Split(s, ' ')) }

  lemma ReadPartText(p: Part)
    requires WellFormedPart(p)
    ensures ReadPart(PartText(p)) == Some(p)
  {
    DigitsTextValue(p);
    var t := PartText(p);
    assert t[..|t| - 1] == DigitsText(p);
  }

  /** Pieces each of which reads as one part read as those parts. */
  lemma {:induction false} ReadPartsEach(pieces: seq<Str>, ps: seq<Part>)
    requires |pieces| == |ps|
    requires forall i | 0 <= i < |ps| :: ReadPart(pieces[i]) == Some(ps[i])
    ensures ReadParts(pieces) == Some(ps)
    decreases |ps|
  {
    if ps != [] {
      var rest, prest := pieces[1..], ps[1..];
      forall i | 0 <= i < |prest|
        ensures ReadPart(rest[i]) == Some(prest[i])
      {
        assert rest[i] == pieces[i + 1] && prest[i] == ps[i + 1];
      }
      ReadPartsEach(rest, prest);
      assert ReadPart(pieces[0]) == Some(ps[0]);
      assert [ps[0]] + prest == ps;
    }
  }

  lemma ReadPartsTexts(ps: seq<Part>)
    requires forall i | 0 <= i < |ps| :: WellFormedPart(ps[i])
    ensures ReadParts(PartTexts(ps)) == Some(ps)
  {
    forall i | 0 <= i < |ps|
      ensures ReadPart(PartTexts(ps)[i]) == Some(ps[i])
    {
      ReadPartText(ps[i]);
    }
    ReadPartsEach(PartTexts(ps), ps);
  }

  /** Rendering is undone by reading: the parts come back unchanged. */
  lemma ReadRender(ps: seq<Part>)
    requires |ps| >= 1
    requires forall i | 0 <= i < |ps| :: WellFormedPart(ps[i])
    ensures Read(Render(ps)) == Some(ps)
  {
    PartTextsSpaceFree(ps);
    SplitJoin(PartTexts(ps), ' ');
    ReadPartsTexts(ps);
  }

  /** No part's text holds a space. */
  lemma PartTextsSpaceFree(ps: seq<Part>)
    requires forall i | 0 <= i < |ps| :: WellFormedPart(ps[i])
    ensures forall i | 0 <= i < |ps| :: ' ' !in PartTexts(ps)[i]
  {
    var ts := PartTexts(ps);
    forall i | 0 <= i < |ts|
      ensures ' ' !in ts[i]
    {
      DigitsTextValue(ps[i]);
      DigitsSpaceFree(DigitsText(ps[i]), ps[i].unit);
      assert ts[i] == DigitsText(ps[i]) + [ps[i].unit];
    }
  }

  lemma DigitsSpaceFree(d: Str, u: char)
    requires AllDigits(d) && u != ' '
    ensures ' ' !in d + [u]
  {
    var t := d + [u];
    forall k | 0 <= k < |t|
      ensures t[k] != ' '
    {
      if k < |d| {
        assert t[k] == d[k] && IsDigit(d[k]);
      }
    }
  }

  /** Seconds per unit letter; other letters weigh nothing. */
  function UnitSeconds(u: char): nat {
    if u == 'd' then 86400 else if u == 'h' then 3600 else if u == 'm' then 60
    else if u == 's' then 1 else 0
  }

  /** Position of a unit in the order days, hours, minutes, seconds. */
  function Rank(u: char): int {
    if u == 'd' then 0 else if u == 'h' then 1 else if u == 'm' then 2 else if u == 's' then 3 else 4
  }

  /** Seconds a sequence of parts adds up to. */
  function Total(ps: seq<Part>): nat {
    if ps == [] then 0 else ps[0].amount * UnitSeconds(ps[0].unit) + Total(ps[1..])
  }

  lemma {:induction false} TotalAppend(a: seq<Part>, b: seq<Part>)
    ensures Total(a + b) == Total(a) + Total(b)
    decreases |a|
  {
    if a != [] {
      assert (a + b)[1..] == a[1..] + b;
      TotalAppend(a[1..], b);
    } else {
      assert a + b == b;
    }
  }

  /** Every unit is one of d, h, m, s, each later unit smaller than the one
      before it. */
  predicate UnitsInOrder(ps: seq<Part>) {
    (forall i | 0 <= i < |ps| :: Rank(ps[i].unit) < 4)
    && forall i, j | 0 <= i < j < |ps| :: Rank(ps[i].unit) < Rank(ps[j].unit)
  }

  /** A part's amount stays below the next unit up. */
  predicate CarriedPart(p: Part) {
    (p.unit == 'h' ==> p.amount < 24) && (p.unit == 'm' ==> p.amount < 60)
    && (p.unit == 's' ==> p.amount < 60)
  }

  /** Hours, minutes and seconds stay below the next unit up. */
  predicate Carried(ps: seq<Part>) {
    forall i | 0 <= i < |ps| :: CarriedPart(ps[i])
  }

  /** Well-formed parts with units in order, carried. */
  predicate Good(ps: seq<Part>) {
    (forall i | 0 <= i < |ps| :: WellFormedPart(ps[i])) && UnitsInOrder(ps) && Carried(ps)
  }

  /** A part in the unpadded style of `formatSeconds` and `formatUptime`. */
  function Plain(n: nat, u: char): Part { Part(n, DigitCount(n), u) }

  /** Every part written with no more digits than its amount needs, as
      `%d` writes it. */
  predicate Unpadded(ps: seq<Part>) {
    forall i | 0 <= i < |ps| :: ps[i].width == DigitCount(ps[i].amount)
  }

  /** A two-digit part in the `%02d` style of `formatTTLSeconds`. */
  function Padded(n: nat, u: char): Part { Part(n, 2, u) }

  /** A candidate part and whether the formatter prints it. */
  datatype Slot = Slot(part: Part, shown: bool)

  function Opt(sl: Slot): seq<Part> { if sl.shown then [sl.part] else [] }

  /** The shown parts of a row of slots, in order: the formatters append
      each candidate part under its own condition. */
  function Emit(slots: seq<Slot>): seq<Part> {
    if slots == [] then [] else Opt(slots[0]) + Emit(slots[1..])
  }

  /** Seconds a slot contributes: its part's when shown, none otherwise. */
  function Worth(sl: Slot): nat {
    if sl.shown then sl.part.amount * UnitSeconds(sl.part.unit) else 0
  }

  /** Seconds the shown slots add up to. */
  function ShownTotal(slots: seq<Slot>): nat {
    if slots == [] then 0 else Worth(slots[0]) + ShownTotal(slots[1..])
  }

  predicate PartOk(p: Part, lo: int) {
    WellFormedPart(p) && CarriedPart(p) && lo < Rank(p.unit) < 4
  }

  lemma {:induction false} EmitPartsOk(slots: seq<Slot>, lo: int)
    requires forall i | 0 <= i < |slots| :: PartOk(slots[i].part, lo)
    ensures forall i | 0 <= i < |Emit(slots)| :: PartOk(Emit(slots)[i], lo)
    decreases |slots|
  {
    if slots != [] {
      var rest := slots[1..];
      assert forall i | 0 <= i < |rest| :: rest[i] == slots[i + 1];
      EmitPartsOk(rest, lo);
    }
  }

  /** Slot units are d, h, m, s in that order, and every part is well formed
      and carried. */
  predicate GoodSlots(slots: seq<Slot>) {
    (forall i | 0 <= i < |slots| :: PartOk(slots[i].part, -1))
    && forall i, j | 0 <= i < j < |slots| :: Rank(slots[i].part.unit) < Rank(slots[j].part.unit)
  }

  /** Unpadded candidates emit unpadded parts. */
  lemma {:induction false} EmitUnpadded(slots: seq<Slot>)
    requires forall i | 0 <= i < |slots| :: slots[i].part.width == DigitCount(slots[i].part.amount)
    ensures Unpadded(Emit(slots))
    decreases |slots|
  {
    if slots != [] {
      var rest := slots[1..];
      assert forall i | 0 <= i < |rest| :: rest[i] == slots[i + 1];
      EmitUnpadded(rest);
      assert Emit(slots) == Opt(slots[0]) + Emit(rest);
    }
  }

  lemma {:induction false} EmitGood(slots: seq<Slot>)
    requires GoodSlots(slots)
    ensures Good(Emit(slots))
    decreases |slots|
  {
    if slots != [] {
      var rest := slots[1..];
      assert forall i | 0 <= i < |rest| :: rest[i] == slots[i + 1];
      EmitGood(rest);
      var tail := Emit(rest);
      var lo := Rank(slots[0].part.unit);
      EmitPartsOk(rest, lo);
      if slots[0].shown {
        assert Emit(slots) == [slots[0].part] + tail;
        ConsGood(slots[0].part, tail);
      } else {
        assert Emit(slots) == tail;
      }
    }
  }

  /** A good part before good parts of smaller units stays good. */
  lemma ConsGood(p: Part, tail: seq<Part>)
    requires PartOk(p, -1) && Good(tail)
    requires forall i | 0 <= i < |tail| :: PartOk(tail[i], Rank(p.unit))
    ensures Good([p] + tail)
  {
    var ps := [p] + tail;
    assert forall i | 1 <= i < |ps| :: ps[i] == tail[i - 1];
  }

  lemma {:induction false} EmitTotal(slots: seq<Slot>)
    ensures Total(Emit(slots)) == ShownTotal(slots)
    decreases |slots|
  {
    if slots != [] {
      EmitTotal(slots[1..]);
      TotalAppend(Opt(slots[0]), Emit(slots[1..]));
      assert Total([slots[0].part]) == slots[0].part.amount * UnitSeconds(slots[0].part.unit) + Total([]);
    }
  }

  /** Emission from four slots, unfolded. */
  lemma Emit4(a: Slot, b: Slot, c: Slot, d: Slot)
    ensures Emit([a, b, c, d]) == Opt(a) + (Opt(b) + (Opt(c) + Opt(d)))
  {
    var slots := [a, b, c, d];
    assert Emit(slots[3..]) == Opt(d) by {
      assert slots[3..] == [d];
      assert Emit([d]) == Opt(d) + Emit([]);
    }
    assert Emit(slots[2..]) == Opt(c) + Emit(slots[3..]) by {
      assert slots[2..][1..] == slots[3..];
    }
    assert Emit(slots[1..]) == Opt(b) + Emit(slots[2..]) by {
      assert slots[1..][1..] == slots[2..];
    }
  }

  /** Four slots for days, hours, minutes and seconds, each well formed
      and carried, emit good parts worth the shown slots together. */
  lemma FourSlots(a: Slot, b: Slot, c: Slot, d: Slot)
    requires PartOk(a.part, -1) && PartOk(b.part, -1) && PartOk(c.part, -1) && PartOk(d.part, -1)
    requires a.part.unit == 'd' && b.part.unit == 'h' && c.part.unit == 'm' && d.part.unit == 's'
    ensures Good(Emit([a, b, c, d]))
    ensures Total(Emit([a, b, c, d])) == Worth(a) + Worth(b) + Worth(c) + Worth(d)
  {
    FourGoodSlots(a, b, c, d);
    EmitGood([a, b, c, d]);
    FourTotal(a, b, c, d);
  }

  lemma FourGoodSlots(a: Slot, b: Slot, c: Slot, d: Slot)
    requires PartOk(a.part, -1) && PartOk(b.part, -1) && PartOk(c.part, -1) && PartOk(d.part, -1)
    requires a.part.unit == 'd' && b.part.unit == 'h' && c.part.unit == 'm' && d.part.unit == 's'
    ensures GoodSlots([a, b, c, d])
  {
    var slots := [a, b, c, d];
    forall i | 0 <= i < 4 ensures Rank(slots[i].part.unit) == i {
    }
  }

  lemma FourTotal(a: Slot, b: Slot, c: Slot, d: Slot)
    ensures Total(Emit([a, b, c, d])) == Worth(a) + Worth(b) + Worth(c) + Worth(d)
  {
    var slots := [a, b, c, d];
    EmitTotal(slots);
    assert ShownTotal(slots[3..]) == Worth(d) by {
      assert slots[3..] == [d];
    }
    assert ShownTotal(slots[2..]) == Worth(c) + ShownTotal(slots[3..]) by {
      assert slots[2..][1..] == slots[3..];
    }
    assert ShownTotal(slots[1..]) == Worth(b) + ShownTotal(slots[2..]) by {
      assert slots[1..][1..] == slots[2..];
    }
  }

  /** Decomposition of a count of seconds into days, hours, minutes and
      seconds, as the formatters compute it. */
  lemma Decompose(seconds: nat)
    ensures var r := seconds % 86400;
      seconds == seconds / 86400 * 86400 + r / 3600 * 3600 + r % 3600 / 60 * 60 + r % 3600 % 60
      && r / 3600 < 24 && r % 3600 / 60 < 60
      && r % 3600 == seconds % 3600 && r % 3600 % 60 == seconds % 60
  {
    var r := seconds % 86400;
    DivModNest(seconds, 86400, 3600, 24);
    DivModNest(r, 3600, 60, 60);
    DivModNest(seconds, 3600, 60, 60);
  }

  /** Splitting off a larger unit first does not change the remainder by a
      smaller unit that divides it. */
  lemma DivModNest(x: nat, big: nat, small: nat, k: nat)
    requires small > 0 && k > 0 && big == small * k
    ensures x % big % small == x % small
    ensures x % big / small < k
    ensures x == x / big * big + x % big / small * small + x % big % small
  {
    var q := x / big;
    var r := x % big;
    var h := r / small;
    var r2 := r % small;
    assert r == h * small + r2;
    assert x == (q * k + h) * small + r2 by {
      assert q * big == q * k * small;
    }
    ModUnique(x, small, q * k + h, r2);
    if h >= k {
      assert h * small >= k * small by { MulMonotone(k, h, small); }
    }
  }

  /** Quotient and remainder are the only such pair. */
  lemma ModUnique(x: int, d: nat, q: int, r: int)
    requires d > 0 && 0 <= r < d && x == q * d + r
    ensures x % d == r && x / d == q
  {
    var q2 := x / d;
    var r2 := x % d;
    assert (q - q2) * d == r2 - r;
    if q > q2 {
      MulMonotone(1, q - q2, d);
    } else if q < q2 {
      MulMonotone(1, q2 - q, d);
    }
  }

  lemma MulMonotone(a: int, b: int, c: nat)
    requires a <= b
    ensures a * c <= b * c
  {
  }

  // ---------------------------------------------------------------- formatSeconds

  /** The candidate parts of `formatSeconds`: each unit when non-zero, the
      seconds also when nothing else was printed. */
  function SecondsSlots(days: nat, hours: nat, minutes: nat, secs: nat): seq<Slot> {
    var none := !(days > 0 || hours > 0 || minutes > 0);
    [Slot(Plain(days, 'd'), days > 0), Slot(Plain(hours, 'h'), hours > 0),
     Slot(Plain(minutes, 'm'), minutes > 0), Slot(Plain(secs, 's'), secs > 0 || none)]
  }

  function SecondsParts(seconds: nat): seq<Part> {
    var days := seconds / 86400;
    var r1 := seconds % 86400;
    var hours := r1 / 3600;
    var r2 := r1 % 3600;
    var minutes := r2 / 60;
    var secs := r2 % 60;
    Emit(SecondsSlots(days, hours, minutes, secs))
  }

  /** `formatSeconds`: "0s" when nothing is left, otherwise each non-zero
      unit in unpadded decimal. */
  function FormatSeconds(seconds: int): Str {
    if seconds <= 0 then "0s" else Render(SecondsParts(seconds))
  }

  lemma SecondsSlotsTotal(days: nat, hours: nat, minutes: nat, secs: nat)
    requires hours < 24 && minutes < 60 && secs < 60
    ensures var ps := Emit(SecondsSlots(days, hours, minutes, secs));
      Good(ps) && Total(ps) == days * 86400 + hours * 3600 + minutes * 60 + secs
  {
    var slots := SecondsSlots(days, hours, minutes, secs);
    FourSlots(slots[0], slots[1], slots[2], slots[3]);
    assert slots == [slots[0], slots[1], slots[2], slots[3]];
  }

  lemma SecondsSlotsShown(days: nat, hours: nat, minutes: nat, secs: nat)
    requires days > 0 || hours > 0 || minutes > 0 || secs > 0
    ensures var ps := Emit(SecondsSlots(days, hours, minutes, secs));
      |ps| >= 1 && forall i | 0 <= i < |ps| :: ps[i].amount > 0
  {
    var slots := SecondsSlots(days, hours, minutes, secs);
    Emit4(slots[0], slots[1], slots[2], slots[3]);
    assert slots == [slots[0], slots[1], slots[2], slots[3]];
  }

  /** A positive number of seconds is written as parts that add up to it,
      every part non-zero, units from largest to smallest, hours, minutes
      and seconds carried into the next unit. Since such a decomposition is
      unique, a unit is printed exactly when its share is non-zero. */
  lemma FormatSecondsMeaning(seconds: int)
    requires seconds > 0
    ensures var r := Read(FormatSeconds(seconds));
      r.Some? && Total(r.value) == seconds && UnitsInOrder(r.value) && Carried(r.value)
      && (forall i | 0 <= i < |r.value| :: r.value[i].amount > 0) && Unpadded(r.value)
  {
    Decompose(seconds);
    var r := seconds % 86400;
    SecondsSlotsTotal(seconds / 86400, r / 3600, r % 3600 / 60, r % 3600 % 60);
    SecondsSlotsShown(seconds / 86400, r / 3600, r % 3600 / 60, r % 3600 % 60);
    SecondsPartsUnpadded(seconds);
    ReadRender(SecondsParts(seconds));
  }

  lemma SecondsPartsUnpadded(seconds: nat)
    ensures Unpadded(SecondsParts(seconds))
  {
    var r := seconds % 86400;
    var slots := SecondsSlots(seconds / 86400, r / 3600, r % 3600 / 60, r % 3600 % 60);
    assert SecondsParts(seconds) == Emit(slots);
    EmitUnpadded(slots);
  }

  /** Nothing left to wait for reads as zero seconds. */
  lemma FormatSecondsNonPositive(seconds: int)
    requires seconds <= 0
    ensures Read(FormatSeconds(seconds)) == Some([Part(0, 1, 's')])
  {
    ReadRender([Part(0, 1, 's')]);
    assert Render([Part(0, 1, 's')]) == "0s";
  }

  // ---------------------------------------------------------------- formatTTLSeconds

  /** The candidate parts of `formatTTLSeconds`: days when non-zero, hours
      and minutes when non-zero or once anything was printed before them,
      seconds when non-zero or when nothing was printed. */
  function TTLSlots(days: nat, hours: nat, minutes: nat, secs: nat): seq<Slot> {
    var showD := days > 0;
    var showH := hours > 0 || showD;
    var showM := minutes > 0 || showH;
    [Slot(Plain(days, 'd'), showD), Slot(Padded(hours, 'h'), showH),
     Slot(Padded(minutes, 'm'), showM), Slot(Padded(secs, 's'), secs > 0 || !showM)]
  }

  function TTLParts(seconds: nat): seq<Part> {
    var days := seconds / 86400;
    var remaining := seconds % 86400;
    var hours := remaining / 3600;
    var remaining' := remaining % 3600;
    var minutes := remaining' / 60;
    var secs := remaining' % 60;
    Emit(TTLSlots(days, hours, minutes, secs))
  }

  /** `formatTTLSeconds`: empty for a key without expiry, otherwise the
      leading non-zero unit and every smaller unit down to minutes, padded
      to two digits, and the seconds when non-zero or alone. */
  function FormatTTLSeconds(seconds: int): Str {
    if seconds <= 0 then "" else Render(TTLParts(seconds))
  }

  /** Units follow each other without gaps: once the largest unit is
      printed, every smaller one down to the last part is too. */
  predicate Contiguous(ps: seq<Part>) {
    forall i | 0 <= i < |ps| :: Rank(ps[i].unit) == Rank(ps[0].unit) + i
  }

  predicate HasUnit(ps: seq<Part>, u: char) {
    exists i | 0 <= i < |ps| :: ps[i].unit == u
  }

  lemma TTLSlotsTotal(days: nat, hours: nat, minutes: nat, secs: nat)
    requires hours < 24 && minutes < 60 && secs < 60
    ensures var ps := Emit(TTLSlots(days, hours, minutes, secs));
      Good(ps) && Total(ps) == days * 86400 + hours * 3600 + minutes * 60 + secs
  {
    var slots := TTLSlots(days, hours, minutes, secs);
    TwoDigits(hours);
    TwoDigits(minutes);
    TwoDigits(secs);
    FourSlots(slots[0], slots[1], slots[2], slots[3]);
    assert slots == [slots[0], slots[1], slots[2], slots[3]];
  }

  /** The parts `formatTTLSeconds` prints, case by case. */
  lemma TTLPartsCases(days: nat, hours: nat, minutes: nat, secs: nat)
    ensures var ps := Emit(TTLSlots(days, hours, minutes, secs));
      var tail := if secs > 0 then [Padded(secs, 's')] else [];
      (days > 0 ==> ps == [Plain(days, 'd'), Padded(hours, 'h'), Padded(minutes, 'm')] + tail)
      && (days == 0 && hours > 0 ==> ps == [Padded(hours, 'h'), Padded(minutes, 'm')] + tail)
      && (days == 0 && hours == 0 && minutes > 0 ==> ps == [Padded(minutes, 'm')] + tail)
      && (days == 0 && hours == 0 && minutes == 0 ==> ps == [Padded(secs, 's')])
  {
    var slots := TTLSlots(days, hours, minutes, secs);
    Emit4(slots[0], slots[1], slots[2], slots[3]);
    assert slots == [slots[0], slots[1], slots[2], slots[3]];
  }

  lemma TTLSlotsShape(days: nat, hours: nat, minutes: nat, secs: nat)
    requires days > 0 || hours > 0 || minutes > 0 || secs > 0
    ensures var ps := Emit(TTLSlots(days, hours, minutes, secs));
      |ps| >= 1 && Contiguous(ps) && ps[0].amount > 0 && ps[|ps| - 1].unit in "ms"
      && (HasUnit(ps, 's') <==> secs > 0 || (days == 0 && hours == 0 && minutes == 0))
      && (forall i | 0 <= i < |ps| :: ps[i].unit != 'd' ==> ps[i].width == 2)
      && forall i | 0 <= i < |ps| :: ps[i].unit == 'd' ==> ps[i].width == DigitCount(ps[i].amount)
  {
    TTLPartsCases(days, hours, minutes, secs);
    var ps := Emit(TTLSlots(days, hours, minutes, secs));
    if days == 0 && hours == 0 && minutes == 0 {
      assert ps[0].unit == 's';
    } else if secs > 0 {
      assert ps[|ps| - 1].unit == 's';
    }
  }

  /** What the value pane promises about the parts of a positive TTL:
      they add up to it, the first one is non-zero, no unit is skipped
      after it, the last is minutes or seconds, the seconds appear exactly
      when they are non-zero or the TTL is under a minute, and hours,
      minutes and seconds are written with two digits, days with as many
      as they need. */
  predicate TTLShaped(ps: seq<Part>, seconds: int) {
    |ps| >= 1 && Good(ps) && Total(ps) == seconds && Contiguous(ps)
    && ps[0].amount > 0 && ps[|ps| - 1].unit in "ms"
    && (HasUnit(ps, 's') <==> seconds % 60 > 0 || seconds < 60)
    && (forall i | 0 <= i < |ps| :: ps[i].unit != 'd' ==> ps[i].width == 2)
    && forall i | 0 <= i < |ps| :: ps[i].unit == 'd' ==> ps[i].width == DigitCount(ps[i].amount)
  }

  lemma TTLPartsMeaning(seconds: nat)
    requires seconds > 0
    ensures TTLShaped(TTLParts(seconds), seconds)
  {
    Decompose(seconds);
    var r := seconds % 86400;
    var days, hours, minutes, secs := seconds / 86400, r / 3600, r % 3600 / 60, r % 3600 % 60;
    SmallUnits(seconds);
    assert TTLParts(seconds) == Emit(TTLSlots(days, hours, minutes, secs));
    SlotsShaped(seconds, days, hours, minutes, secs);
  }

  /** The parts of any in-range decomposition of a positive count are
      shaped as `TTLShaped` says. */
  lemma SlotsShaped(seconds: nat, days: nat, hours: nat, minutes: nat, secs: nat)
    requires seconds > 0 && hours < 24 && minutes < 60 && secs < 60
    requires seconds == days * 86400 + hours * 3600 + minutes * 60 + secs
    requires secs == seconds % 60
    requires days == 0 && hours == 0 && minutes == 0 <==> seconds < 60
    ensures TTLShaped(Emit(TTLSlots(days, hours, minutes, secs)), seconds)
  {
    TTLSlotsTotal(days, hours, minutes, secs);
    TTLSlotsShape(days, hours, minutes, secs);
  }

  /** Days, hours and minutes are all zero exactly below a minute. */
  lemma SmallUnits(seconds: nat)
    ensures var r := seconds % 86400;
      seconds / 86400 == 0 && r / 3600 == 0 && r % 3600 / 60 == 0 <==> seconds < 60
  {
    if seconds < 60 {
      assert seconds % 86400 == seconds;
    } else if seconds < 86400 {
      assert seconds % 86400 == seconds;
      assert seconds % 3600 / 60 > 0 || seconds / 3600 > 0;
    }
  }

  /** A positive TTL reads back as parts shaped as `TTLShaped` says. */
  lemma FormatTTLSecondsMeaning(seconds: int)
    requires seconds > 0
    ensures var r := Read(FormatTTLSeconds(seconds));
      r.Some? && TTLShaped(r.value, seconds)
  {
    TTLPartsMeaning(seconds);
    ReadRender(TTLParts(seconds));
  }

  /** Render of one, two and three parts, unfolded. */
  lemma Render123(a: Part, b: Part, c: Part)
    ensures Render([a]) == PartText(a)
    ensures Render([a, b]) == PartText(a) + (" " + PartText(b))
    ensures Render([a, b, c]) == PartText(a) + (" " + (PartText(b) + (" " + PartText(c))))
  {
    assert PartTexts([a]) == [PartText(a)];
    assert PartTexts([a, b]) == [PartText(a), PartText(b)];
    assert PartTexts([a, b, c]) == [PartText(a), PartText(b), PartText(c)];
    Join123(PartText(a), PartText(b), PartText(c), " ");
  }

  lemma SmallTexts()
    ensures PartText(Part(1, 1, 'd')) == "1d"
    ensures PartText(Part(0, 2, 'h')) == "00h" && PartText(Part(0, 2, 'm')) == "00m"
    ensures PartText(Part(5, 2, 's')) == "05s"
  {
    OneDayText();
    ZeroText('h');
    ZeroText('m');
    FiveSecondsText();
  }

  lemma OneDayText()
    ensures PartText(Part(1, 1, 'd')) == "1d"
  {
    assert FormatInt(1) == "1" by {
      assert PositiveDigits(0) == [];
    }
    assert PadZeros("1", 1) == "1";
  }

  lemma ZeroText(u: char)
    ensures PartText(Part(0, 2, u)) == ['0', '0', u]
  {
    assert Zeros(1) == "0" by {
      assert Zeros(0) == [];
    }
    assert PadZeros("0", 2) == "00";
  }

  lemma FiveSecondsText()
    ensures PartText(Part(5, 2, 's')) == "05s"
  {
    assert FormatInt(5) == "5" by {
      assert PositiveDigits(0) == [];
    }
    assert Zeros(1) == "0" by {
      assert Zeros(0) == [];
    }
    assert PadZeros("5", 2) == "05";
  }

  lemma TTLPartsExamples()
    ensures TTLParts(86400) == [Part(1, 1, 'd'), Part(0, 2, 'h'), Part(0, 2, 'm')]
    ensures TTLParts(5) == [Part(5, 2, 's')]
  {
    TTLPartsDay();
    TTLPartsFive();
  }

  lemma TTLPartsDay()
    ensures TTLParts(86400) == [Part(1, 1, 'd'), Part(0, 2, 'h'), Part(0, 2, 'm')]
  {
    TTLPartsCases(1, 0, 0, 0);
  }

  lemma TTLPartsFive()
    ensures TTLParts(5) == [Part(5, 2, 's')]
  {
    TTLPartsCases(0, 0, 0, 5);
  }

  lemma DayText()
    ensures "1d" + (" " + ("00h" + (" " + "00m"))) == "1d 00h 00m"
  {
  }

  /** Two boundary cases the value pane shows: a whole day keeps its empty
      hours and minutes, and a few seconds are padded. */
  lemma FormatTTLSecondsExamples()
    ensures FormatTTLSeconds(86400) == "1d 00h 00m"
    ensures FormatTTLSeconds(5) == "05s"
    ensures FormatTTLSeconds(0) == "" && FormatTTLSeconds(-1) == ""
  {
    TTLPartsExamples();
    SmallTexts();
    assert FormatTTLSeconds(86400) == "1d 00h 00m" by {
      Render123(Part(1, 1, 'd'), Part(0, 2, 'h'), Part(0, 2, 'm'));
      DayText();
    }
    assert FormatTTLSeconds(5) == "05s" by {
      Render123(Part(5, 2, 's'), Part(5, 2, 's'), Part(5, 2, 's'));
    }
  }

  // ---------------------------------------------------------------- formatUptime

  /** Go's integer division, which truncates toward zero. */
  function GoQuot(a: int, b: int): int
    requires b > 0
  {
    if a >= 0 then a / b else -((-a) / b)
  }

  /** Go's `%`, whose result takes the sign of the dividend. */
  function GoRem(a: int, b: int): int
    requires b > 0
  {
    a - GoQuot(a, b) * b
  }

  /** The day, hour and minute counts `formatUptime` prints. */
  datatype Clock = Clock(days: int, hours: int, minutes: int)

  function UptimeClock(seconds: int): Clock {
    Clock(GoQuot(seconds, 86400), GoQuot(GoRem(seconds, 86400), 3600),
          GoQuot(GoRem(seconds, 3600), 60))
  }

  function UptimeText(c: Clock): Str {
    if c.days > 0 then Itoa(c.days) + ("d " + (Itoa(c.hours) + ("h " + (Itoa(c.minutes) + "m"))))
    else if c.hours > 0 then Itoa(c.hours) + ("h " + (Itoa(c.minutes) + "m"))
    else Itoa(c.minutes) + "m"
  }

  /** `formatUptime`, with Go's truncating division: days, hours and
      minutes when at least a day, hours and minutes when at least an hour,
      otherwise minutes alone. Nothing guards a negative argument. */
  function FormatUptime(seconds: int): Str { UptimeText(UptimeClock(seconds)) }

  /** For a non-negative uptime Go's division is the ordinary one. */
  lemma UptimeClockNonNegative(seconds: int)
    requires seconds >= 0
    ensures UptimeClock(seconds) == Clock(seconds / 86400, seconds % 86400 / 3600, seconds % 3600 / 60)
  {
    assert GoRem(seconds, 86400) == seconds % 86400;
    assert GoRem(seconds, 3600) == seconds % 3600;
  }

  lemma GoQuotNegative(x: int, b: int)
    requires x < 0 && b > 0
    ensures GoQuot(x, b) == -((-x) / b) && GoRem(x, b) == -((-x) % b)
  {
    assert -x == (-x) / b * b + (-x) % b;
  }

  /** For a negative uptime every count is zero or negative. */
  lemma UptimeClockNegative(seconds: int)
    requires seconds < 0
    ensures var c := UptimeClock(seconds);
      c.days <= 0 && c.hours <= 0 && c.minutes == -((-seconds) % 3600 / 60)
  {
    GoQuotNegative(seconds, 86400);
    GoQuotNegative(seconds, 3600);
    var r := GoRem(seconds, 86400);
    if r < 0 {
      GoQuotNegative(r, 3600);
    }
    var r2 := GoRem(seconds, 3600);
    if r2 < 0 {
      GoQuotNegative(r2, 60);
    }
  }

  /** The parts a clock of non-negative counts prints. */
  function UptimeParts(c: Clock): seq<Part>
    requires c.days >= 0 && c.hours >= 0 && c.minutes >= 0
  {
    var d, h, m := Plain(c.days, 'd'), Plain(c.hours, 'h'), Plain(c.minutes, 'm');
    if c.days > 0 then [d, h, m] else if c.hours > 0 then [h, m] else [m]
  }

  lemma PlainText(n: nat, u: char)
    ensures PartText(Plain(n, u)) == Itoa(n) + [u]
  {
    FormatIntLength(n);
  }

  /** Regrouping a unit letter with the space after it. */
  lemma Regroup(a: Str, u: char, b: Str)
    ensures (a + [u]) + (" " + b) == a + ([u, ' '] + b)
  {
  }

  lemma UptimeTextRender(c: Clock)
    requires c.days >= 0 && c.hours >= 0 && c.minutes >= 0
    ensures UptimeText(c) == Render(UptimeParts(c))
  {
    var d, h, m := Plain(c.days, 'd'), Plain(c.hours, 'h'), Plain(c.minutes, 'm');
    PlainText(c.days, 'd');
    PlainText(c.hours, 'h');
    PlainText(c.minutes, 'm');
    if c.days > 0 {
      Render123(d, h, m);
      Regroup(Itoa(c.hours), 'h', Itoa(c.minutes) + "m");
      Regroup(Itoa(c.days), 'd', Itoa(c.hours) + ("h " + (Itoa(c.minutes) + "m")));
    } else if c.hours > 0 {
      Render123(h, m, m);
      Regroup(Itoa(c.hours), 'h', Itoa(c.minutes) + "m");
    } else {
      Render123(m, m, m);
    }
  }

  /** The parts of a carried clock add up to its minutes, keep the carry,
      and start at the largest non-zero unit above minutes. */
  lemma UptimePartsFacts(c: Clock)
    requires c.days >= 0 && 0 <= c.hours < 24 && 0 <= c.minutes < 60
    ensures var ps := UptimeParts(c);
      Total(ps) == c.days * 86400 + c.hours * 3600 + c.minutes * 60 && Carried(ps)
      && (c.days > 0 ==> |ps| == 3 && ps[0].unit == 'd' && ps[1].unit == 'h' && ps[2].unit == 'm')
      && (c.days == 0 && c.hours > 0 ==> |ps| == 2 && ps[0].unit == 'h' && ps[1].unit == 'm')
      && (c.days == 0 && c.hours == 0 ==> |ps| == 1 && ps[0].unit == 'm')
  {
    var d, h, m := Plain(c.days, 'd'), Plain(c.hours, 'h'), Plain(c.minutes, 'm');
    assert Total([m]) == c.minutes * 60;
    assert Total([h, m]) == c.hours * 3600 + Total([m]) by {
      assert [h, m][1..] == [m];
    }
    assert Total([d, h, m]) == c.days * 86400 + Total([h, m]) by {
      assert [d, h, m][1..] == [h, m];
    }
  }

  lemma UptimePartsWellFormed(c: Clock)
    requires c.days >= 0 && c.hours >= 0 && c.minutes >= 0
    ensures |UptimeParts(c)| >= 1
    ensures forall i | 0 <= i < |UptimeParts(c)| :: WellFormedPart(UptimeParts(c)[i])
    ensures Unpadded(UptimeParts(c))
  {
  }

  /** A non-negative uptime reads back as whole minutes: the parts add up
      to the uptime less its leftover seconds, and which units appear
      depends only on whether a day or an hour has passed. */
  lemma FormatUptimeMeaning(seconds: int)
    requires seconds >= 0
    ensures var r := Read(FormatUptime(seconds));
      r.Some? && Total(r.value) == seconds - seconds % 60 && Carried(r.value) && Unpadded(r.value)
      && (seconds >= 86400 ==> |r.value| == 3 && r.value[0].unit == 'd' && r.value[1].unit == 'h' && r.value[2].unit == 'm')
      && (3600 <= seconds < 86400 ==> |r.value| == 2 && r.value[0].unit == 'h' && r.value[1].unit == 'm')
      && (seconds < 3600 ==> |r.value| == 1 && r.value[0].unit == 'm')
  {
    Decompose(seconds);
    UptimeClockNonNegative(seconds);
    var c := UptimeClock(seconds);
    assert c.days > 0 <==> seconds >= 86400;
    assert c.days == 0 ==> (c.hours > 0 <==> seconds >= 3600);
    UptimeTextRender(c);
    UptimePartsWellFormed(c);
    ReadRender(UptimeParts(c));
    UptimePartsFacts(c);
  }

  /** A negative uptime prints only a minute count, which is zero or
      negative: truncation toward zero makes days and hours non-positive. */
  lemma FormatUptimeNegative(seconds: int)
    requires seconds < 0
    ensures FormatUptime(seconds) == Itoa(-((-seconds) % 3600 / 60)) + "m"
    ensures -60 < -((-seconds) % 3600 / 60) <= 0
  {
    UptimeClockNegative(seconds);
  }
}
