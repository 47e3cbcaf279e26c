/** A key of the list (internal/ui/components/keylist/item.go, and its older
    twin in internal/tui/item.go) and the texts shown for it: the list row's
    description and the line structure of the value pane
    (internal/ui/components/valueview/model.go). Every text is given a
    reader, and each text is proved to read back to what it was made of. */
module Items {
  import opened Base
  import opened Text
  import opened Decimal
  import opened Durations

  /** One key of the list. `ttlSeconds` is -1 while unknown; `loaded` says
      whether the value has been fetched; `err` says whether fetching failed,
      in which case `val` holds the error text. */
  datatype Item = Item(keyType: Str, key: Str, val: Str, ttlSeconds: int, err: bool, loaded: bool)

  /** The list row's title. */
  function Title(it: Item): Str { it.key }

  /** The text the list's filter matches against: the same as the title. */
  function FilterValue(it: Item): (r: Str)
    ensures r == Title(it)
  {
    it.key
  }

  // ------------------------------------------------------------ descriptions

  /** The byte-count tail of a description: `": <n> bytes"`. */
  function SizeTail(n: nat): Str { ": " + (FormatInt(n) + " bytes") }

  /** `Description` of internal/ui: the error text when fetching failed, a
      not-loaded marker before the fetch, the value's byte length after. */
  function Description(it: Item): Str {
    if it.err then "get error: " + it.val
    else if !it.loaded then it.keyType + " (not loaded)"
    else it.keyType + SizeTail(|it.val|)
  }

  /** `Description` of internal/tui: the key's and the value's byte lengths. */
  function TuiDescription(it: Item): Str {
    if it.err then "get error: " + it.val
    else FormatInt(|it.key|) + SizeTail(|it.val|)
  }

  /** What a description tells the reader. */
  datatype Shown = ShownError(text: Str) | ShownUnloaded(keyType: Str)
                 | ShownSize(keyType: Str, size: nat)
                 | ShownSizes(keySize: nat, valSize: nat)

  /** Reads `": <digits> bytes"`. */
  function ReadSizeTail(t: Str): Option<nat> {
    if |t| >= 9 && t[..2] == ": " && t[|t| - 6..] == " bytes" && AllDigits(t[2..|t| - 6])
    then Some(DecimalValue(t[2..|t| - 6]))
    else None
  }

  /** Reads an internal/ui description back. Its key type is a name without
      spaces or colons, as the store's type names are. */
  function ReadDescription(d: Str): Option<Shown> {
    if ':' in d then
      var i := FirstIndex(d, ':');
      var size := ReadSizeTail(d[i..]);
      if ' ' !in d[..i] && size.Some? then Some(ShownSize(d[..i], size.value))
      else if |d| >= 11 && d[..11] == "get error: " then Some(ShownError(d[11..]))
      else None
    else if |d| >= 13 && d[|d| - 13..] == " (not loaded)" then Some(ShownUnloaded(d[..|d| - 13]))
    else None
  }

  /** Reads an internal/tui description back. */
  function ReadTuiDescription(d: Str): Option<Shown> {
    if ':' in d then
      var i := FirstIndex(d, ':');
      var size := ReadSizeTail(d[i..]);
      if i >= 1 && AllDigits(d[..i]) && size.Some? then Some(ShownSizes(DecimalValue(d[..i]), size.value))
      else if |d| >= 11 && d[..11] == "get error: " then Some(ShownError(d[11..]))
      else None
    else None
  }

  /** A store type name: no spaces and no colons. */
  predicate TypeName(t: Str) { ' ' !in t && ':' !in t }

  /** What an item's internal/ui description should tell: the error text
      when fetching failed (whatever `loaded` says), else the type and, once
      loaded, the value's byte length. */
  function Expected(it: Item): Shown {
    if it.err then ShownError(it.val)
    else if !it.loaded then ShownUnloaded(it.keyType)
    else ShownSize(it.keyType, |it.val|)
  }

  /** Digit text holds no punctuation or space. */
  lemma DigitsPlain(s: Str)
    requires AllDigits(s)
    ensures ':' !in s && '(' !in s && ' ' !in s
  {
    assert forall k | 0 <= k < |s| :: IsDigit(s[k]);
  }

  lemma SizeTailRead(n: nat)
    ensures ReadSizeTail(SizeTail(n)) == Some(n)
    ensures |SizeTail(n)| >= 1 && SizeTail(n)[0] == ':'
  {
    var t := SizeTail(n);
    var f := FormatInt(n);
    assert t[..2] == ": ";
    assert t[2..|t| - 6] == f;
    assert t[|t| - 6..] == " bytes";
  }

  /** A colon-free head followed by a size tail: the first colon ends the
      head, and the tail reads back as the size. */
  lemma HeadSizeTail(p: Str, n: nat)
    requires ':' !in p
    ensures var d := p + SizeTail(n);
      ':' in d && FirstIndex(d, ':') == |p| && d[..|p|] == p && ReadSizeTail(d[|p|..]) == Some(n)
  {
    var t := SizeTail(n);
    var d := p + t;
    SizeTailRead(n);
    assert d[|p|..] == t;
    assert d[..|p|] == p;
    assert d == p + [':'] + t[1..] by {
      assert t == [':'] + t[1..];
    }
    FirstIndexOfJoin(p, ':', t[1..]);
  }

  lemma ErrorPrefix(v: Str)
    ensures var d := "get error: " + v;
      ':' in d && FirstIndex(d, ':') == 9 && ' ' in d[..9] && !AllDigits(d[..9])
      && |d| >= 11 && d[..11] == "get error: " && d[11..] == v
  {
    var d := "get error: " + v;
    FirstIndexOfJoin("get error", ':', " " + v);
    assert d == "get error" + [':'] + (" " + v);
    assert d[..9] == "get error";
    assert d[3] == ' ' && !IsDigit(d[0]);
  }

  lemma ErrorDescriptionReads(v: Str)
    ensures ReadDescription("get error: " + v) == Some(ShownError(v))
    ensures ReadTuiDescription("get error: " + v) == Some(ShownError(v))
  {
    ErrorPrefix(v);
  }

  lemma UnloadedReads(t: Str)
    requires TypeName(t)
    ensures ReadDescription(t + " (not loaded)") == Some(ShownUnloaded(t))
  {
    var d := t + " (not loaded)";
    assert d[|d| - 13..] == " (not loaded)";
    assert d[..|d| - 13] == t;
    assert ':' !in d by {
      assert forall k | 0 <= k < |d| :: d[k] == if k < |t| then t[k] else " (not loaded)"[k - |t|];
    }
  }

  /** Round trip of internal/ui's `Description`: for a key whose type is a
      store type name, the description reads back as the error text, the
      not-loaded type, or the type and the value's exact byte length. */
  lemma DescriptionReadsBack(it: Item)
    requires TypeName(it.keyType)
    ensures ReadDescription(Description(it)) == Some(Expected(it))
  {
    if it.err {
      ErrorDescriptionReads(it.val);
    } else if !it.loaded {
      UnloadedReads(it.keyType);
    } else {
      HeadSizeTail(it.keyType, |it.val|);
    }
  }

  /** Round trip of internal/tui's `Description`: the error text, or the
      key's and the value's exact byte lengths. */
  lemma TuiDescriptionReadsBack(it: Item)
    ensures ReadTuiDescription(TuiDescription(it))
         == Some(if it.err then ShownError(it.val) else ShownSizes(|it.key|, |it.val|))
  {
    if it.err {
      ErrorDescriptionReads(it.val);
    } else {
      var f := FormatInt(|it.key|);
      DigitsPlain(f);
      HeadSizeTail(f, |it.val|);
    }
  }

  /** The error text wins over everything else, whatever `loaded` says, in
      both generations of the list. */
  lemma ErrorDescription(it: Item)
    requires it.err
    ensures Description(it) == TuiDescription(it)
    ensures ReadDescription(Description(it)) == Some(ShownError(it.val))
  {
    ErrorDescriptionReads(it.val);
  }

  // ------------------------------------------------------------ value pane

  /** The TTL line of the value pane: the readable TTL and the raw count. */
  function TTLText(seconds: int): Str {
    "TTL: " + ((FormatTTLSeconds(seconds) + (" (" + Itoa(seconds))) + " seconds)")
  }

  /** Reads a TTL line back into its readable part and its second count. */
  function ReadTTLText(t: Str): Option<(Str, nat)> {
    if |t| >= 14 && t[..5] == "TTL: " && t[|t| - 9..] == " seconds)" then ReadTTLBody(t[5..|t| - 9])
    else None
  }

  /** Reads `<readable> (<digits>`, splitting at the last parenthesis. */
  function ReadTTLBody(body: Str): Option<(Str, nat)> {
    if '(' in body then
      var i := LastIndex(body, '(');
      var digits := body[i + 1..];
      if i >= 1 && body[i - 1] == ' ' && digits != [] && AllDigits(digits)
      then Some((body[..i - 1], DecimalValue(digits)))
      else None
    else None
  }

  lemma TTLBodyRead(f: Str, n: Str)
    requires n != [] && AllDigits(n)
    ensures ReadTTLBody(f + (" (" + n)) == Some((f, DecimalValue(n)))
  {
    var body := f + (" (" + n);
    var i := |f| + 1;
    assert body == (f + " ") + [('(')] + n;
    DigitsPlain(n);
    LastIndexOfJoin(f + " ", '(', n);
    assert body[i - 1] == ' ' && body[..i - 1] == f && body[i + 1..] == n;
  }

  lemma TTLTextFrame(body: Str)
    ensures ReadTTLText("TTL: " + (body + " seconds)")) == ReadTTLBody(body)
  {
    Framed("TTL: ", body, " seconds)");
  }

  /** A TTL line built from any readable part and any digit text reads back
      as those two. */
  lemma TTLTextRead(f: Str, n: Str)
    requires n != [] && AllDigits(n)
    ensures ReadTTLText("TTL: " + ((f + (" (" + n)) + " seconds)")) == Some((f, DecimalValue(n)))
  {
    TTLTextFrame(f + (" (" + n));
    TTLBodyRead(f, n);
  }

  lemma TTLTextReadsBack(seconds: int)
    requires seconds > 0
    ensures ReadTTLText(TTLText(seconds)) == Some((FormatTTLSeconds(seconds), seconds))
  {
    TTLTextRead(FormatTTLSeconds(seconds), Itoa(seconds));
  }

  /** One line of the value pane. The key and the value are kept as they
      are: word wrapping, JSON indentation and styles are not modelled. */
  datatype Line = Text(text: Str) | Divider | KeyLine(key: Str) | ValueLine(value: Str) | Loading

  /** `FormatContent`: the key type, a TTL line when the TTL is positive, a
      divider, the key, a divider, and the value or a placeholder while the
      value is not loaded. */
  function ContentLines(it: Item): seq<Line> {
    [Text("KeyType: " + it.keyType)]
    + (if it.ttlSeconds > 0 then [Text(TTLText(it.ttlSeconds))] else [])
    + [Divider, KeyLine(it.key), Divider, if it.loaded then ValueLine(it.val) else Loading]
  }

  /** What the value pane tells the reader. */
  datatype Content = Content(keyType: Str, ttl: Option<int>, key: Str, value: Option<Str>)

  /** Reads the pane's lines back, expecting the layout above. */
  function ReadContent(ls: seq<Line>): Option<Content> {
    if (|ls| == 5 || |ls| == 6) && ls[0].Text? && |ls[0].text| >= 9 && ls[0].text[..9] == "KeyType: "
       && ls[|ls| - 4] == Divider && ls[|ls| - 3].KeyLine? && ls[|ls| - 2] == Divider
       && (ls[|ls| - 1].ValueLine? || ls[|ls| - 1].Loading?)
    then
      var value := if ls[|ls| - 1].ValueLine? then Some(ls[|ls| - 1].value) else None;
      var c := Content(ls[0].text[9..], None, ls[|ls| - 3].key, value);
      if |ls| == 5 then Some(c)
      else if ls[1].Text? && ReadTTLText(ls[1].text).Some? then
        Some(c.(ttl := Some(ReadTTLText(ls[1].text).value.1)))
      else None
    else None
  }

  /** The layout reads back whatever the key type, key and value are. */
  lemma LayoutReads(kt: Str, ttl: seq<Line>, key: Str, last: Line)
    requires |ttl| <= 1 && (|ttl| == 1 ==> ttl[0].Text? && ReadTTLText(ttl[0].text).Some?)
    requires last.ValueLine? || last.Loading?
    ensures ReadContent([Text("KeyType: " + kt)] + ttl + [Divider, KeyLine(key), Divider, last])
         == Some(Content(kt, if |ttl| == 1 then Some(ReadTTLText(ttl[0].text).value.1 as int) else None,
                         key, if last.ValueLine? then Some(last.value) else None))
  {
    var k := "KeyType: " + kt;
    assert k[..9] == "KeyType: " && k[9..] == kt;
  }

  /** Round trip of `FormatContent`: the pane reads back as the item's key
      type, its TTL exactly when that is positive, its key, and its value
      exactly when it is loaded (the placeholder otherwise). */
  lemma ContentReadsBack(it: Item)
    ensures ReadContent(ContentLines(it))
         == Some(Content(it.keyType, if it.ttlSeconds > 0 then Some(it.ttlSeconds) else None,
                         it.key, if it.loaded then Some(it.val) else None))
  {
    var ttl := if it.ttlSeconds > 0 then [Text(TTLText(it.ttlSeconds))] else [];
    if it.ttlSeconds > 0 {
      TTLTextReadsBack(it.ttlSeconds);
    }
    LayoutReads(it.keyType, ttl, it.key, if it.loaded then ValueLine(it.val) else Loading);
  }

  /** The TTL line's readable part is the TTL split into days, hours,
      minutes and seconds that add up to it, and its count is the TTL. */
  lemma TTLTextMeaning(seconds: int)
    requires seconds > 0
    ensures var r := ReadTTLText(TTLText(seconds));
      r.Some? && r.value.1 == seconds
      && var parts := Read(r.value.0); parts.Some? && TTLShaped(parts.value, seconds)
  {
    TTLTextReadsBack(seconds);
    FormatTTLSecondsMeaning(seconds);
  }
}
