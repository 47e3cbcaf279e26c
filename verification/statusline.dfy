/** The text part of the status bar (`statusView` in both generations'
    view.go): the delete confirmation with its key shortened to the room
    left, the purge confirmation, and the default description with the
    active filter in front of the status message. The widths of the styled
    pieces around the text (status label, encoding, wrap marker, clock) are
    inputs: measuring rendered text is left to the terminal library. */
module StatusLine {
  import opened Base
  import opened Text
  import opened Decimal

  /** The bytes the delete prompt adds around the key: `Delete key ''? (y/n)`. */
  const PromptOverhead: int := 20

  /** The extra margin kept free after the prompt. */
  const PromptMargin: int := 5

  /** The fewest key bytes the prompt ever shows before shortening. */
  const MinKeyLen: int := 10

  const Ellipsis: Str := "..."

  /** The room left for a key, given the width left after the fixed pieces:
      the width minus the prompt and the margin, but never below ten. */
  function MaxKeyLen(available: int): (n: nat)
    ensures n >= MinKeyLen && n >= available - PromptOverhead - PromptMargin
    ensures n == MinKeyLen || n == available - PromptOverhead - PromptMargin
  {
    var room := available - PromptOverhead - PromptMargin;
    if room < MinKeyLen then MinKeyLen else room
  }

  /** The key as the prompt shows it: verbatim when it fits, otherwise its
      first `maxLen` bytes followed by an ellipsis. */
  function ShownKey(key: Str, maxLen: nat): (s: Str)
    ensures |key| <= maxLen ==> s == key
    ensures |key| > maxLen ==> |s| == maxLen + |Ellipsis| && s[..maxLen] == key[..maxLen] && s[maxLen..] == Ellipsis
  {
    if |key| > maxLen then key[..maxLen] + Ellipsis else key
  }

  const DeleteHead: Str := "Delete key '"
  const DeleteTail: Str := "'? (y/n)"

  /** The delete confirmation for `key` with `available` columns left. */
  function DeletePrompt(key: Str, available: int): Str {
    DeleteHead + (ShownKey(key, MaxKeyLen(available)) + DeleteTail)
  }

  /** The prompt never grows past the room it is given once that room is at
      least the shortest shortened prompt (35 bytes): it needs at most the
      overhead, the key's room and the ellipsis. */
  lemma DeletePromptFits(key: Str, available: int)
    ensures |DeletePrompt(key, available)| <= PromptOverhead + MaxKeyLen(available) + |Ellipsis|
    ensures available >= PromptOverhead + PromptMargin + MinKeyLen ==>
      |DeletePrompt(key, available)| <= available - 2
  {
  }

  /** What the prompt shows of the key is always a prefix of it: the whole
      key when it fits, else exactly as many bytes as there is room for. A
      key that does not fit reads in full only when the bytes cut off are
      themselves an ellipsis. */
  lemma {:induction false} DeletePromptShowsPrefix(key: Str, available: int)
    ensures var n := Min(|key|, MaxKeyLen(available));
      DeletePrompt(key, available)[|DeleteHead|..|DeleteHead| + n] == key[..n]
    ensures |key| <= MaxKeyLen(available) ==> DeletePrompt(key, available) == DeleteHead + (key + DeleteTail)
    ensures |key| > MaxKeyLen(available) ==>
      (DeletePrompt(key, available) == DeleteHead + (key + DeleteTail) <==> key[MaxKeyLen(available)..] == Ellipsis)
  {
    var m := MaxKeyLen(available);
    var s := ShownKey(key, m);
    Framed(DeleteHead, s, DeleteTail);
    Framed(DeleteHead, key, DeleteTail);
    var p := DeletePrompt(key, available);
    assert p[|DeleteHead|..|p| - |DeleteTail|] == s;
    assert p[|DeleteHead|..|DeleteHead| + Min(|key|, m)] == s[..Min(|key|, m)];
    if |key| > m {
      if key[m..] == Ellipsis {
        assert key == key[..m] + key[m..];
      }
    }
  }

  const PurgeHead: Str := "PURGE ALL KEYS in database "
  const PurgeTail: Str := "? (y/n)"

  /** The purge confirmation names the database with `%d`. */
  function PurgePrompt(db: int): Str {
    PurgeHead + (Itoa(db) + PurgeTail)
  }

  /** The purge prompt tells the database back: its digits sit between the
      fixed words, so two databases never share a prompt. */
  lemma PurgePromptNames(db1: int, db2: int)
    ensures PurgePrompt(db1) == PurgePrompt(db2) <==> db1 == db2
  {
    if PurgePrompt(db1) == PurgePrompt(db2) {
      Framed(PurgeHead, Itoa(db1), PurgeTail);
      Framed(PurgeHead, Itoa(db2), PurgeTail);
      ItoaInjective(db1, db2);
    }
  }

  /** `%d` writes different numbers differently. */
  lemma ItoaInjective(a: int, b: int)
    requires Itoa(a) == Itoa(b)
    ensures a == b
  {
    if a < 0 && b < 0 {
      assert DecimalValue(Itoa(a)[1..]) == -a && DecimalValue(Itoa(b)[1..]) == -b;
    }
  }

  const StrictLabel: Str := "Strict Filter"
  const FuzzyLabel: Str := "Fuzzy Filter"
  const LoadingText: Str := "Loading..."

  /** The name of the filter mode shown in the status line. */
  function FilterLabel(strict: bool): Str { if strict then StrictLabel else FuzzyLabel }

  /** The description in the default state: the status message when ready,
      the loading text while a reply is pending, and, over either, the
      active filter in brackets followed by the status message if there is
      one. */
  function DefaultDescription(ready: bool, message: Str, filter: Str, strict: bool): (d: Str)
    ensures filter == [] && ready ==> d == message
    ensures filter == [] && !ready ==> d == LoadingText
    ensures filter != [] ==> |d| > 1 && d[0] == '[' && (d[1] == 'S' <==> strict)
  {
    if filter != [] then
      var tag := "[" + FilterLabel(strict) + ": " + filter + "]";
      if message != [] then tag + " " + message else tag
    else if ready then message
    else LoadingText
  }

  /** An active filter hides whether a reply is pending: the description is
      the same either way. */
  lemma FilterOverridesLoading(message: Str, filter: Str, strict: bool)
    requires filter != []
    ensures DefaultDescription(true, message, filter, strict) == DefaultDescription(false, message, filter, strict)
  {
  }

  /** An active filter is shown in full right after the mode's name, and the
      status message, when there is one, ends the description after a
      space; without a message the description ends with the bracket. */
  lemma {:induction false} FilterLabelShows(ready: bool, message: Str, filter: Str, strict: bool)
    requires filter != []
    ensures var d := DefaultDescription(ready, message, filter, strict);
      var at := |FilterLabel(strict)| + 3;
      |d| >= at + |filter| + 1 && d[at..at + |filter|] == filter && d[at + |filter|] == ']'
      && (message == [] ==> |d| == at + |filter| + 1)
      && (message != [] ==> d[at + |filter| + 1..] == " " + message)
  {
    var name := FilterLabel(strict);
    var tag := "[" + name + ": " + filter + "]";
    var at := |name| + 3;
    assert tag == ("[" + name + ": ") + (filter + "]");
    assert |"[" + name + ": "| == at;
    assert tag[at..at + |filter|] == filter;
    if message != [] {
      var d := tag + " " + message;
      assert d == tag + (" " + message);
      assert d[at + |filter| + 1..] == " " + message;
    }
  }

  /** The width left for the description after the fixed pieces, never
      negative: the least non-negative value no smaller than what remains. */
  function AvailableWidth(width: int, fixed: int): (a: nat)
    ensures a >= width - fixed
    ensures a == 0 || a == width - fixed
  {
    if width - fixed < 0 then 0 else width - fixed
  }
}
