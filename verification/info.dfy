/** The `INFO` reply reader of `internal/redis/parser.go`: the reply is split
    into lines; blank lines and `#` section headers are skipped; every other
    line with a colon contributes the trimmed text before its first colon as
    a field name and the trimmed rest as the value, a later line overriding
    an earlier one with the same name. */
module InfoParser {
  import opened Base
  import opened Text

  /** What one reply line contributes to the field map: a field exactly
      when, once trimmed, the line is non-empty, not a `#` header and holds a
      colon; the field is then the trimmed text on either side of the first
      colon. */
  function LineEntry(line: Str): (r: Option<(Str, Str)>)
    ensures var t := TrimSpace(line);
      r.Some? <==> t != [] && t[0] != '#' && ':' in t
    ensures var t := TrimSpace(line);
      r.Some? ==> exists i | 0 <= i < |t| ::
        t[i] == ':' && ':' !in t[..i] && r.value == (TrimSpace(t[..i]), TrimSpace(t[i + 1..]))
  {
    var t := TrimSpace(line);
    if t == [] || t[0] == '#' then None
    else if ':' in t then
      var i := FirstIndex(t, ':');
      Some((TrimSpace(t[..i]), TrimSpace(t[i + 1..])))
    else None
  }

  /** The contributions of a sequence of lines, in order. */
  function LineEntries(lines: seq<Str>): (es: seq<Option<(Str, Str)>>)
    ensures |es| == |lines|
    ensures forall i | 0 <= i < |lines| :: es[i] == LineEntry(lines[i])
  {
    seq(|lines|, i requires 0 <= i < |lines| => LineEntry(lines[i]))
  }

  /** Entry `e` sets field `k`. */
  predicate Sets(e: Option<(Str, Str)>, k: Str) {
    e.Some? && e.value.0 == k
  }

  /** The field map the contributions build up, each one written over the
      map the earlier ones built. */
  function Collect(es: seq<Option<(Str, Str)>>): map<Str, Str>
  {
    if es == [] then map[]
    else
      var m := Collect(es[..|es| - 1]);
      match es[|es| - 1]
      case None => m
      case Some(kv) => m[kv.0 := kv.1]
  }

  /** `parseInfo`: the field map of an INFO reply. */
  function ParseInfo(info: Str): map<Str, Str>
  {
    Collect(LineEntries(Split(info, '\n')))
  }

  /** A field is present exactly when some line sets it. */
  lemma {:induction false} CollectDomain(es: seq<Option<(Str, Str)>>, k: Str)
    ensures k in Collect(es) <==> exists i | 0 <= i < |es| :: Sets(es[i], k)
  {
    if es != [] {
      var n := |es| - 1;
      var init := es[..n];
      CollectDomain(init, k);
      if k in Collect(es) && !Sets(es[n], k) {
        var i :| 0 <= i < |init| && Sets(init[i], k);
        assert es[i] == init[i];
      }
      if exists i | 0 <= i < |es| :: Sets(es[i], k) {
        var i :| 0 <= i < |es| && Sets(es[i], k);
        if i < n {
          assert init[i] == es[i];
        }
      }
    }
  }

  /** The value of a field is the one the last line setting it gives: a
      later line overrides an earlier one. */
  lemma {:induction false} CollectLastWins(es: seq<Option<(Str, Str)>>, i: int)
    requires 0 <= i < |es| && es[i].Some?
    requires forall j | i < j < |es| :: !Sets(es[j], es[i].value.0)
    ensures es[i].value.0 in Collect(es) && Collect(es)[es[i].value.0] == es[i].value.1
  {
    var init := es[..|es| - 1];
    if i < |es| - 1 {
      assert init[i] == es[i];
      assert forall j | i < j < |init| :: init[j] == es[j];
      CollectLastWins(init, i);
      assert !Sets(es[|es| - 1], es[i].value.0);
    }
  }

  /** A line without a field (blank, a section header, or no colon) leaves
      the map as it was. */
  lemma SkippedLineKeepsFields(lines: seq<Str>, line: Str)
    requires LineEntry(line).None?
    ensures Collect(LineEntries(lines + [line])) == Collect(LineEntries(lines))
  {
    var es := LineEntries(lines + [line]);
    assert es[|lines|] == LineEntry(line);
    assert es[..|es| - 1] == LineEntries(lines) by {
      assert forall i | 0 <= i < |lines| :: (lines + [line])[i] == lines[i];
    }
  }

  /** A field as the server prints it: a non-empty name that neither starts
      with `#` nor holds a colon or a line break, a value without a line
      break, and neither surrounded by white space. */
  predicate PrintableField(f: (Str, Str)) {
    var (k, v) := f;
    k != [] && k[0] != '#' && ':' !in k && '\n' !in k
    && !IsSpace(k[0]) && !IsSpace(k[|k| - 1])
    && '\n' !in v && (v == [] || (!IsSpace(v[0]) && !IsSpace(v[|v| - 1])))
  }

  function FieldLine(f: (Str, Str)): Str { f.0 + ":" + f.1 }

  /** An INFO reply body: one `name:value` line per field. */
  function RenderInfo(fields: seq<(Str, Str)>): Str {
    Join(seq(|fields|, i requires 0 <= i < |fields| => FieldLine(fields[i])), "\n")
  }

  lemma LineEntryOfField(f: (Str, Str))
    requires PrintableField(f)
    ensures LineEntry(FieldLine(f)) == Some(f)
  {
    var (k, v) := f;
    var line := k + [':'] + v;
    assert FieldLine(f) == line;
    assert line[0] == k[0];
    assert line[|line| - 1] == if v == [] then ':' else v[|v| - 1];
    TrimSpaceTrimmed(line);
    TrimSpaceTrimmed(k);
    TrimSpaceTrimmed(v);
    FirstIndexOfJoin(k, ':', v);
    assert line[..|k|] == k;
    assert line[|k| + 1..] == v;
  }

  function AsEntries(fields: seq<(Str, Str)>): (es: seq<Option<(Str, Str)>>)
    ensures |es| == |fields| && forall i | 0 <= i < |fields| :: es[i] == Some(fields[i])
  {
    seq(|fields|, i requires 0 <= i < |fields| => Some(fields[i]))
  }

  /** The lines of a rendered reply contribute exactly its fields. */
  lemma RenderedLines(fields: seq<(Str, Str)>)
    requires |fields| >= 1
    requires forall i | 0 <= i < |fields| :: PrintableField(fields[i])
    ensures LineEntries(Split(RenderInfo(fields), '\n')) == AsEntries(fields)
  {
    var lines := seq(|fields|, i requires 0 <= i < |fields| => FieldLine(fields[i]));
    forall i | 0 <= i < |lines|
      ensures '\n' !in lines[i]
    {
      assert lines[i] == fields[i].0 + [':'] + fields[i].1;
    }
    SplitJoin(lines, '\n');
    forall i | 0 <= i < |fields|
      ensures LineEntry(lines[i]) == Some(fields[i])
    {
      LineEntryOfField(fields[i]);
    }
  }

  /** Fields with distinct names all land in the map, and nothing else. */
  lemma CollectDistinct(fields: seq<(Str, Str)>)
    requires forall i, j | 0 <= i < j < |fields| :: fields[i].0 != fields[j].0
    ensures var m := Collect(AsEntries(fields));
      (forall i | 0 <= i < |fields| :: fields[i].0 in m && m[fields[i].0] == fields[i].1)
      && (forall k | k in m :: exists i | 0 <= i < |fields| :: fields[i].0 == k)
  {
    var es := AsEntries(fields);
    forall i | 0 <= i < |fields|
      ensures fields[i].0 in Collect(es) && Collect(es)[fields[i].0] == fields[i].1
    {
      CollectLastWins(es, i);
    }
    forall k | k in Collect(es)
      ensures exists i | 0 <= i < |fields| :: fields[i].0 == k
    {
      CollectDomain(es, k);
    }
  }

  /** Round trip: reading a rendered reply whose field names are distinct
      gives back every field with its value, and nothing else. */
  lemma ParseInfoRenderInfo(fields: seq<(Str, Str)>)
    requires forall i | 0 <= i < |fields| :: PrintableField(fields[i])
    requires forall i, j | 0 <= i < j < |fields| :: fields[i].0 != fields[j].0
    ensures var m := ParseInfo(RenderInfo(fields));
      (forall i | 0 <= i < |fields| :: fields[i].0 in m && m[fields[i].0] == fields[i].1)
      && (forall k | k in m :: exists i | 0 <= i < |fields| :: fields[i].0 == k)
  {
    if fields == [] {
      assert Split(RenderInfo(fields), '\n') == [""];
      assert LineEntry("").None?;
      assert LineEntries([""]) == [None];
      assert Collect([None]) == Collect([]);
    } else {
      RenderedLines(fields);
      CollectDistinct(fields);
    }
  }
}
