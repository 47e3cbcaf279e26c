/** The incremental display of a scan result, end to end: the scan
    handler asks for a first batch, every `ShowBatch` command runs the
    batch slicer (`displayBatchCmd`) on the values it captured, and its
    message goes back through the batch handler, which asks for the next
    batch until one is complete. Whichever generation runs it, the list
    ends up holding exactly the scanned items, in order. */
module Pipeline {
  import opened Base
  import opened Items
  import opened Commands
  import opened App
  import UiUpdate
  import TuiUpdate

  /** The two interface generations. */
  datatype Generation = Ui | Tui

  /** The generation's `ScanMsg`/`scanMsg` handler. */
  function Scanned(g: Generation, r: Record, found: seq<Item>, complete: bool, total: int): (Record, seq<Effect>) {
    match g
    case Ui => UiUpdate.OnScanned(r, found, complete, total)
    case Tui => TuiUpdate.OnScanned(r, found)
  }

  /** The generation's `ScanBatchMsg`/`scanBatchMsg` handler. */
  function Shown(g: Generation, r: Record, b: Batch): (Record, seq<Effect>) {
    match g
    case Ui => UiUpdate.OnBatch(r, b)
    case Tui => TuiUpdate.OnBatch(r, b)
  }

  /** The batch request among a handler's commands, if any: the handlers put
      it last. */
  function NextRequest(es: seq<Effect>): (req: Option<Effect>)
    ensures req.Some? <==> es != [] && es[|es| - 1].ShowBatch?
    ensures req.Some? ==> req.value.ShowBatch? && req.value == es[|es| - 1]
  {
    if es != [] && es[|es| - 1].ShowBatch? then Some(es[|es| - 1]) else None
  }

  /** Both generations' batch handlers append an incomplete batch, advance
      the index by its length and ask for the next batch from there; after
      a complete batch they clear the pending items and the index and ask
      for nothing more. */
  lemma ShownSteps(g: Generation, r: Record, b: Batch)
    ensures var (r', es) := Shown(g, r, b);
      r'.items == r.items + b.items
      && (!b.isComplete ==>
            r'.pending == r.pending && r'.index == r.index + |b.items| && NextRequest(es) == Some(ShowBatch(r'.pending, r'.index)))
      && (b.isComplete ==> r'.pending == [] && r'.index == 0 && NextRequest(es).None?)
  {
    var (r', es) := Shown(g, r, b);
    if b.isComplete {
      if g == Ui { UiUpdate.BatchCompletes(r, b); } else { TuiUpdate.BatchCompletes(r, b); }
      if es != [] {
        assert es[|es| - 1] in es;
      }
    } else {
      if g == Ui { UiUpdate.BatchAppends(r, b); } else { TuiUpdate.BatchAppends(r, b); }
    }
  }

  /** Both generations' scan handlers empty the list and ask for the first
      batch of the scanned items from index zero. */
  lemma ScannedStarts(g: Generation, r: Record, found: seq<Item>, complete: bool, total: int)
    ensures var (r', es) := Scanned(g, r, found, complete, total);
      r'.items == [] && r'.pending == found && r'.index == 0
      && NextRequest(es) == Some(ShowBatch(found, 0))
  {
    if g == Ui { UiUpdate.ScanStartsDisplay(r, found, complete, total); }
  }

  /** The number of batches a display of `n` items takes: one per fifty
      items, rounded up, and a single empty one for no items. */
  function BatchCount(n: nat): nat {
    if n == 0 then 1 else (n + BatchSize - 1) / BatchSize
  }

  lemma LastBatchCount(k: nat, n: nat)
    requires k * BatchSize < n <= k * BatchSize + BatchSize
    ensures BatchCount(n) == k + 1
  {
  }

  /** The pending items are `found`, of which the first `batches` full
      batches are on display and at least one item is still to come (or
      there are none and no batch was shown yet). */
  predicate Displaying(r: Record, found: seq<Item>, batches: nat) {
    r.pending == found && r.index == batches * BatchSize
    && (r.index < |found| || (found == [] && batches == 0))
    && r.items == found[..r.index]
  }

  /** One batch request answered: either the display goes on with one more
      full batch and a request for the next, or it is finished with every
      item shown after exactly `BatchCount` batches. */
  lemma DisplayStep(g: Generation, r: Record, found: seq<Item>, batches: nat)
    requires Displaying(r, found, batches)
    ensures var (r', es) := Shown(g, r, DisplayBatch(r.pending, r.index));
      var next := NextRequest(es);
      (next.Some? ==> next.value == ShowBatch(r'.pending, r'.index) && Displaying(r', found, batches + 1))
      && (next.None? ==> r'.items == found && r'.pending == [] && r'.index == 0 && batches + 1 == BatchCount(|found|))
  {
    var b := DisplayBatch(r.pending, r.index);
    ShownSteps(g, r, b);
    SliceAdvance(found, batches, b);
  }

  /** The slicer's batch from a multiple of fifty extends the shown prefix:
      an incomplete one by a full batch short of the end, a complete one up
      to the end, after the last of `BatchCount` batches. */
  lemma SliceAdvance(found: seq<Item>, batches: nat, b: Batch)
    requires batches * BatchSize < |found| || (found == [] && batches == 0)
    requires b == DisplayBatch(found, batches * BatchSize)
    ensures var i := batches * BatchSize;
      i + |b.items| <= |found| && found[..i] + b.items == found[..i + |b.items|]
      && (!b.isComplete ==> i + |b.items| == (batches + 1) * BatchSize && i + |b.items| < |found|)
      && (b.isComplete ==> found[..i] + b.items == found && batches + 1 == BatchCount(|found|))
  {
    var i := batches * BatchSize;
    if i < |found| {
      assert found[..i] + b.items == found[..i + |b.items|];
      if b.isComplete {
        LastBatchCount(batches, |found|);
        assert found[..|found|] == found;
      }
    }
  }

  /** A scan result followed by every batch it leads to: each batch request
      is answered by the slicer on the values the request captured, until
      no request is left. The list then holds exactly the scanned items,
      nothing is pending, and it took one batch per fifty items. */
  method ScanAndDisplay(g: Generation, r: Record, found: seq<Item>, complete: bool, total: int)
    returns (r': Record, batches: nat)
    ensures r'.items == found && r'.pending == [] && r'.index == 0
    ensures batches == BatchCount(|found|)
  {
    var start := Scanned(g, r, found, complete, total);
    r' := start.0;
    ScannedStarts(g, r, found, complete, total);
    var next := NextRequest(start.1);
    batches := 0;
    while next.Some?
      invariant next.Some? ==> next.value == ShowBatch(r'.pending, r'.index) && Displaying(r', found, batches)
      invariant next.None? ==>
        r'.items == found && r'.pending == [] && r'.index == 0 && batches == BatchCount(|found|)
      decreases if next.Some? then |found| - r'.index + 1 else 0
    {
      DisplayStep(g, r', found, batches);
      var shown := Shown(g, r', DisplayBatch(next.value.pending, next.value.index));
      r' := shown.0;
      next := NextRequest(shown.1);
      batches := batches + 1;
    }
  }
}
