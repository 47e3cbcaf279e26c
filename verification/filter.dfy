/** The key filter of the scan (`applyFilter` in internal/ui/commands.go
    and the same code inline in `scanCmd` of internal/tui/command.go): no
    filter keeps every key; the strict mode keeps the keys whose lower-case
    form contains the lower-case filter, in scan order; the fuzzy mode is an
    outside library whose ranking is a parameter here. */
module KeyFilter {
  import opened Base
  import opened Text

  /** Strict matching: case-insensitive substring search. */
  predicate StrictMatch(key: Str, filter: Str) {
    Contains(Lower(key), Lower(filter))
  }

  /** The keys kept by the strict mode, in their order. */
  function StrictFilter(keys: seq<Str>, filter: Str): seq<Str>
    decreases |keys|
  {
    if keys == [] then []
    else
      var last := keys[|keys| - 1];
      StrictFilter(keys[..|keys| - 1], filter) + (if StrictMatch(last, filter) then [last] else [])
  }

  /** `a` is `b` with some elements left out, the rest in their order. */
  predicate Subsequence(a: seq<Str>, b: seq<Str>)
    decreases |b|
  {
    if a == [] then true
    else if b == [] then false
    else if a[|a| - 1] == b[|b| - 1] then Subsequence(a[..|a| - 1], b[..|b| - 1])
    else Subsequence(a, b[..|b| - 1])
  }

  /** `applyFilter`: the keys unchanged for an empty filter, otherwise the
      strict or the fuzzy selection. */
  function ApplyFilter(keys: seq<Str>, filter: Str, strict: bool,
                       fuzzy: (Str, seq<Str>) -> seq<Str>): (r: seq<Str>)
    ensures filter == [] ==> r == keys
    ensures filter != [] && strict ==> r == StrictFilter(keys, filter)
  {
    if filter == [] then keys
    else if strict then StrictFilter(keys, filter)
    else fuzzy(filter, keys)
  }

  /** A key is kept exactly when it is among the input keys and matches. */
  lemma {:induction false} StrictFilterMembers(keys: seq<Str>, filter: Str)
    ensures forall k :: k in StrictFilter(keys, filter) <==> k in keys && StrictMatch(k, filter)
    decreases |keys|
  {
    if keys != [] {
      var init := keys[..|keys| - 1];
      StrictFilterMembers(init, filter);
      assert keys == init + [keys[|keys| - 1]];
    }
  }

  /** Appending one more element to the longer sequence keeps a
      subsequence a subsequence. */
  lemma {:induction false} SubsequenceSnoc(a: seq<Str>, b: seq<Str>, x: Str)
    requires Subsequence(a, b)
    ensures Subsequence(a, b + [x])
    decreases |b|, 1
  {
    if a != [] {
      assert (b + [x])[..|b|] == b;
      if a[|a| - 1] == x {
        SubsequenceDrop(a, b);
      }
    }
  }

  /** A subsequence with its last element dropped is still one. */
  lemma {:induction false} SubsequenceDrop(a: seq<Str>, b: seq<Str>)
    requires a != [] && Subsequence(a, b)
    ensures Subsequence(a[..|a| - 1], b)
    decreases |b|, 0
  {
    var a', b' := a[..|a| - 1], b[..|b| - 1];
    assert b' + [b[|b| - 1]] == b;
    if a[|a| - 1] != b[|b| - 1] {
      SubsequenceDrop(a, b');
    }
    SubsequenceSnoc(a', b', b[|b| - 1]);
  }

  /** The same element appended to both keeps a subsequence one. */
  lemma SubsequenceBoth(a: seq<Str>, b: seq<Str>, x: Str)
    requires Subsequence(a, b)
    ensures Subsequence(a + [x], b + [x])
  {
    assert (a + [x])[..|a|] == a && (b + [x])[..|b|] == b;
  }

  /** The strict selection keeps the scan order: it is a subsequence of the
      input keys. */
  lemma {:induction false} StrictFilterOrdered(keys: seq<Str>, filter: Str)
    ensures Subsequence(StrictFilter(keys, filter), keys)
    decreases |keys|
  {
    if keys != [] {
      var init, last := keys[..|keys| - 1], keys[|keys| - 1];
      StrictFilterOrdered(init, filter);
      var r := StrictFilter(init, filter);
      assert StrictFilter(keys, filter) == r + (if StrictMatch(last, filter) then [last] else []);
      assert init + [last] == keys;
      if StrictMatch(last, filter) {
        SubsequenceBoth(r, init, last);
      } else {
        assert r + [] == r;
        SubsequenceSnoc(r, init, last);
      }
    }
  }

  /** Filtering twice with the same filter is filtering once. */
  lemma {:induction false} StrictFilterIdempotent(keys: seq<Str>, filter: Str)
    ensures StrictFilter(StrictFilter(keys, filter), filter) == StrictFilter(keys, filter)
    decreases |keys|
  {
    if keys != [] {
      var init, last := keys[..|keys| - 1], keys[|keys| - 1];
      StrictFilterIdempotent(init, filter);
      var r := StrictFilter(init, filter);
      assert StrictFilter(keys, filter) == r + (if StrictMatch(last, filter) then [last] else []);
      if StrictMatch(last, filter) {
        assert (r + [last])[..|r|] == r && (r + [last])[|r|] == last;
        assert StrictFilter(r + [last], filter) == StrictFilter(r, filter) + [last];
      } else {
        assert r + [] == r;
      }
    }
  }

  /** With the empty filter every key matches. */
  lemma StrictFilterEmpty(keys: seq<Str>)
    ensures StrictFilter(keys, []) == keys
    decreases |keys|
  {
    if keys != [] {
      StrictFilterEmpty(keys[..|keys| - 1]);
      assert OccursAt(Lower(keys[|keys| - 1]), Lower([]), 0);
      assert keys[..|keys| - 1] + [keys[|keys| - 1]] == keys;
    }
  }

  lemma LowerLower(s: Str)
    ensures Lower(Lower(s)) == Lower(s)
  {
  }

  /** Case does not matter on either side: the filter and its lower-case
      form select the same keys. */
  lemma StrictFilterCaseless(keys: seq<Str>, filter: Str)
    ensures StrictFilter(keys, Lower(filter)) == StrictFilter(keys, filter)
    decreases |keys|
  {
    LowerLower(filter);
    if keys != [] {
      StrictFilterCaseless(keys[..|keys| - 1], filter);
    }
  }
}
