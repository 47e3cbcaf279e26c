/** `App.Update` of the second-generation interface (internal/ui/update.go)
    as a step function: a message and the record give the next record and
    the commands to run.

    Only key presses reach the state handlers in a way this model can
    observe: every other message is forwarded to widgets (list, viewport,
    spinner, text inputs) whose own handling is left out, and key presses
    are not handled globally. So a key press goes to the handler of the
    current state and every other message to the global handlers.

    A dialog callback is applied to the record the dialog is used with. */
module UiUpdate {
  import opened Base
  import opened Decimal
  import opened Items
  import opened Commands
  import opened Dialogs
  import opened App

  /** `scanCmd` and `countCmd`: the scan filters with the record's filter
      and mode; neither passes a search pattern to the store. */
  function Rescan(r: Record): (Record, seq<Effect>) {
    (r.(ready := false, scanInProgress := true, scannedKeyCount := 0),
     [Scan([], r.fuzzyFilter, r.fuzzyStrict), Count([])])
  }

  /** The reply to a mutating command: the failure text, or the success
      text and a rescan. */
  function Reply(r: Record, err: Option<Str>, failed: Str, done: Str): (Record, seq<Effect>) {
    if err.Some? then (r.(statusMessage := Failure(failed, err.value)), [])
    else Rescan(r.(statusMessage := done))
  }

  /** `ScanMsg` (lines 186-204). */
  function OnScanned(r: Record, found: seq<Item>, complete: bool, total: int): (Record, seq<Effect>) {
    var r1 := r.(scannedKeyCount := total, scanInProgress := !complete, pending := found, index := 0, items := []);
    var r2 := if complete then r1 else r1.(statusMessage := ScanningText(total));
    (r2, [ShowBatch(found, 0)])
  }

  /** `ScanBatchMsg` (lines 205-239). */
  function OnBatch(r: Record, b: Batch): (Record, seq<Effect>) {
    var r1 := AppendBatch(r, b);
    var r2 := if b.isComplete then r1 else r1.(statusMessage := DisplayingText(r1.index, |r1.pending|));
    var load := FirstLoad(r, r2, b);
    if !b.isComplete then (r2, load + [ShowBatch(r2.pending, r2.index)])
    else if r2.totalKeysToScan > 0 then (r2.(statusMessage := KeysFound(r2.db, r2.totalKeysToScan)), load)
    else (r2, load)
  }

  /** What a mutation reply changes before the outcome is known: the edit
      and create results return to the default state; the switch returns
      to it, clears its input and, when it succeeded, takes the new
      database. */
  function Prepared(r: Record, m: Msg): Record
    requires Mutation(m)
  {
    var back := m.EditResult? || m.CreateResult? || m.SwitchedDB?;
    r.(state := if back then StateDefault else r.state,
       dbInput := if m.SwitchedDB? then Cleared else r.dbInput,
       db := if m.SwitchedDB? && m.err.None? then m.db else r.db)
  }

  /** `EditValueMsg`, `CreateValueMsg`, `DeleteMsg`, `SetTTLMsg`, `PurgeMsg`
      and `SwitchDBMsg` (lines 76-185). */
  function Mutate(r: Record, m: Msg): (Record, seq<Effect>)
    requires Mutation(m)
  {
    Reply(Prepared(r, m), m.err, FailedWhat(m), DoneWhat(m))
  }

  /** The global handlers of `Update` (lines 27-244). */
  function Global(r: Record, m: Msg): (Record, seq<Effect>)
    requires !m.KeyPress?
  {
    match m
    case StatsResult(err) => OnStats(r, err)
    case EditReady(key, tmp, err) => OnEditReady(r, key, tmp, err, false)
    case CreateReady(key, tmp, err) => OnEditReady(r, key, tmp, err, true)
    case EditorFinished(_, err) => OnEditorFinished(r, err)
    case EditResult(_, _) => Mutate(r, m)
    case CreateResult(_, _) => Mutate(r, m)
    case Deleted(_, _) => Mutate(r, m)
    case TTLSet(_, _, _) => Mutate(r, m)
    case Purged(_, _) => Mutate(r, m)
    case SwitchedDB(_, _) => Mutate(r, m)
    case Failed(text) => (r.(statusMessage := text), [])
    case ValueLoaded(load) => OnValueLoaded(r, load)
    case Scanned(found, complete, total) => OnScanned(r, found, complete, total)
    case BatchShown(b) => OnBatch(r, b)
    case Counted(n) => (r.(totalKeysToScan := n, statusMessage := KeysFound(r.db, n), ready := true), [])
    case Background => (r, [])
  }

  // ------------------------------------------------ default state

  /** `handleDefaultState` for a rune key (lines 306-461). Entering the
      search, filter or switch-database dialog installs its callbacks and
      focuses it; the filter dialog starts from the current filter. */
  function DefaultRunes(r: Record, t: Str): (Record, seq<Effect>) {
    if t == BindSearch then
      (r.(state := StateSearch,
          searchDialog := r.searchDialog.(hasSubmit := true, hasCancel := true, input := Focused(r.searchDialog.input))), [])
    else if t == BindFuzzy then
      var d := r.filterDialog.(input := Input(r.fuzzyFilter, true), hasSubmit := true, hasCancel := true, hasToggle := true);
      (r.(state := StateFuzzySearch, filterDialog := d), [])
    else if t == BindSwitchDB then (r.(state := StateSwitchDB, dbInput := Input([], true)), [])
    else if t == BindReload then Rescan(r)
    else if t == BindDelete then
      (match Selected(r)
       case Some(it) =>
         var d := SetConfirmCallbacks(NewConfirmDialog(ConfirmDelete, KeyData(it.key)));
         (r.(keyToDelete := it.key, state := StateConfirmDelete, confirmDialog := d), [])
       case None => (r, []))
    else if t == BindPurge then
      var d := SetConfirmCallbacks(NewConfirmDialog(ConfirmPurge, DbData(r.db)));
      (r.(state := StateConfirmPurge, confirmDialog := d), [])
    else SharedRunes(r, t)
  }

  /** Ctrl-F: toggle the mode, say so, and rescan when a filter is set. */
  function ToggleMode(r: Record): (Record, seq<Effect>) {
    var r1 := r.(fuzzyStrict := !r.fuzzyStrict, statusMessage := ModeText(!r.fuzzyStrict));
    if r1.fuzzyFilter != [] then Rescan(r1) else (r1, [])
  }

  /** `handleDefaultState` for a key press (lines 304-503). */
  function DefaultKey(r: Record, k: Key, env: Env): (Record, seq<Effect>) {
    match k
    case Runes(t) => DefaultRunes(r, t)
    case CtrlC => (r, [Quit])
    case CtrlF => ToggleMode(r)
    case Left => (r.(focused := PaneList), [])
    case Right => (r.(focused := PaneViewport), [])
    case Up => if r.focused == PaneList then Navigate(r, env) else (r, [])
    case Down => if r.focused == PaneList then Navigate(r, env) else (r, [])
    case _ => (r, [])
  }

  // ------------------------------------------------ dialog callbacks

  /** The search dialog's submit callback (lines 311-318). */
  function SearchSubmitted(r: Record, pattern: Str): (Record, seq<Effect>) {
    Rescan(r.(searchValue := pattern, state := StateDefault))
  }

  /** The search dialog's cancel callback (lines 319-329). */
  function SearchCancelled(r: Record): (Record, seq<Effect>) {
    var r1 := r.(state := StateDefault);
    if r1.searchValue != [] then Rescan(r1.(searchValue := [])) else (r1, [])
  }

  /** The filter dialog's submit callback (lines 336-343). */
  function FilterSubmitted(r: Record, pattern: Str): (Record, seq<Effect>) {
    Rescan(r.(fuzzyFilter := pattern, state := StateDefault))
  }

  /** The filter dialog's cancel callback (lines 344-354). */
  function FilterCancelled(r: Record): (Record, seq<Effect>) {
    var r1 := r.(state := StateDefault);
    if r1.fuzzyFilter != [] then Rescan(r1.(fuzzyFilter := [])) else (r1, [])
  }

  /** The switch-database dialog's submit callback (lines 376-384): an empty
      or negative number is refused with a message and the state stays;
      otherwise the switch starts. */
  function SwitchSubmitted(r: Record, text: Str, env: Env): (Record, seq<Effect>) {
    var db := env.toInt(text);
    if text == [] || db < 0 then (r.(statusMessage := InvalidDBText), [])
    else (r.(ready := false), [SwitchDB(db)])
  }

  /** The confirmation's callbacks (lines 409-419 and 425-434). */
  function Confirmed(r: Record, o: Outcome): (Record, seq<Effect>) {
    match o
    case OnConfirm =>
      if r.confirmDialog.kind == ConfirmDelete then (r.(state := StateDefault), [Delete(r.keyToDelete)])
      else (r.(state := StateDefault), [Purge(r.db)])
    case OnCancel =>
      if r.confirmDialog.kind == ConfirmDelete then (r.(state := StateDefault, keyToDelete := []), [])
      else (r.(state := StateDefault), [])
    case _ => (r, [])
  }

  // ------------------------------------------------ the step

  /** The search dialog in use (lines 251-253). */
  function InSearch(r: Record, k: Key, env: Env): (Record, seq<Effect>) {
    var (d, o) := SearchUpdate(r.searchDialog, Press(k), Typing(env));
    var r1 := r.(searchDialog := d);
    match o
    case OnSubmit(v) => SearchSubmitted(r1, v)
    case OnCancel => SearchCancelled(r1)
    case _ => (r1, [])
  }

  /** The filter dialog in use (lines 254-256). */
  function InFilter(r: Record, k: Key, env: Env): (Record, seq<Effect>) {
    var (d, o) := FilterUpdate(r.filterDialog, Press(k), Typing(env));
    var r1 := r.(filterDialog := d);
    match o
    case OnSubmit(v) => FilterSubmitted(r1, v)
    case OnCancel => FilterCancelled(r1)
    case OnToggle => ToggleMode(r1)
    case _ => (r1, [])
  }

  /** The switch-database dialog in use (lines 257-268): Esc leaves it;
      Enter submits its text and empties it. */
  function InSwitchDB(r: Record, k: Key, env: Env): (Record, seq<Effect>) {
    if k == Esc then (r.(state := StateDefault, dbInput := Cleared), [])
    else if k == Enter then SwitchSubmitted(r.(dbInput := Cleared), r.dbInput.value, env)
    else (r.(dbInput := Typing(env)(r.dbInput)), [])
  }

  /** The confirmation in use (lines 277-279). */
  function InConfirm(r: Record, k: Key): (Record, seq<Effect>) {
    var (d, o) := ConfirmUpdate(r.confirmDialog, Press(k));
    Confirmed(r.(confirmDialog := d), o)
  }

  /** The state handlers of `Update` for a key press (lines 246-286). */
  function OnKey(r: Record, k: Key, env: Env): (Record, seq<Effect>) {
    match r.state
    case StateDefault => DefaultKey(r, k, env)
    case StateSearch => InSearch(r, k, env)
    case StateFuzzySearch => InFilter(r, k, env)
    case StateSwitchDB => InSwitchDB(r, k, env)
    case StateSetTTL => SetTTLKey(r, k, env)
    case StateCreateKeyInput => CreateKeyInputKey(r, k, env)
    case StateEditingKey => (r, [])
    case StateConfirmDelete => InConfirm(r, k)
    case StateConfirmPurge => InConfirm(r, k)
    case StateHelp => HelpKey(r, k)
    case StateStats => StatsKey(r, k)
  }

  /** `App.Update`. */
  function Step(r: Record, m: Msg, env: Env): (Record, seq<Effect>) {
    if m.KeyPress? then OnKey(r, m.pressed, env) else Global(r, m)
  }

  // ------------------------------------------------ properties

  /** A rescan has started: not ready, a scan in progress from zero keys,
      and a scan and a count issued with the record's filter. */
  predicate RescanStarted(r: Record, es: seq<Effect>) {
    !r.ready && r.scanInProgress && r.scannedKeyCount == 0
    && es == [Scan([], r.fuzzyFilter, r.fuzzyStrict), Count([])]
  }

  /** A successful mutation rescans with the success text on the status
      line; a successful switch also takes the new database. Apart from the
      return to the default state (edit, create, switch) and the cleared
      switch input, nothing else changes. */
  lemma MutationSucceeded(r: Record, m: Msg)
    requires Mutation(m) && m.err.None?
    ensures var (r', es) := Mutate(r, m);
      var back := m.EditResult? || m.CreateResult? || m.SwitchedDB?;
      RescanStarted(r', es)
      && r' == r.(state := if back then StateDefault else r.state,
                  dbInput := if m.SwitchedDB? then Cleared else r.dbInput,
                  db := if m.SwitchedDB? then m.db else r.db,
                  statusMessage := DoneWhat(m),
                  ready := false, scanInProgress := true, scannedKeyCount := 0)
  {
    var p := Prepared(r, m);
    assert Mutate(r, m) == Rescan(p.(statusMessage := DoneWhat(m)));
  }

  /** A failed mutation issues nothing and reports the error after the
      operation's failure prefix; the database stays, and only the return
      to the default state and the cleared switch input change besides. */
  lemma MutationFailed(r: Record, m: Msg)
    requires Mutation(m) && m.err.Some?
    ensures var (r', es) := Mutate(r, m);
      var back := m.EditResult? || m.CreateResult? || m.SwitchedDB?;
      es == []
      && r' == r.(state := if back then StateDefault else r.state,
                  dbInput := if m.SwitchedDB? then Cleared else r.dbInput,
                  statusMessage := FailedWhat(m) + ": " + m.err.value)
  {
  }

  /** `ScanMsg` empties the list, keeps the scanned items as pending from
      index zero and asks for the first batch of exactly those. */
  lemma ScanStartsDisplay(r: Record, found: seq<Item>, complete: bool, total: int)
    ensures var (r', es) := OnScanned(r, found, complete, total);
      r'.items == [] && r'.pending == found && r'.index == 0
      && r'.scannedKeyCount == total && r'.scanInProgress == !complete
      && es == [ShowBatch(r'.pending, r'.index)]
  {
  }

  /** `ScanBatchMsg` appends the batch and advances the index by its
      length. An incomplete batch asks for the next one from the new
      index; a complete one clears the pending items and the index and asks
      for nothing more. */
  lemma BatchAppends(r: Record, b: Batch)
    requires !b.isComplete
    ensures var (r', es) := OnBatch(r, b);
      r'.items == r.items + b.items && r'.pending == r.pending && r'.index == r.index + |b.items|
      && |es| >= 1 && es[|es| - 1] == ShowBatch(r'.pending, r'.index)
  {
  }

  /** A complete batch is appended too, and then the pending items and the
      index are cleared and no further batch is asked for. */
  lemma BatchCompletes(r: Record, b: Batch)
    requires b.isComplete
    ensures var (r', es) := OnBatch(r, b);
      r'.items == r.items + b.items && r'.pending == [] && r'.index == 0
      && forall e | e in es :: !e.ShowBatch?
  {
  }

  /** A value load is asked for exactly when the batch is the first
      non-empty one into an empty list and the selected item is not loaded. */
  lemma BatchLoadsFirst(r: Record, b: Batch)
    ensures var (r', es) := OnBatch(r, b);
      (exists e | e in es :: e.Load?) <==>
        r.items == [] && b.items != [] && Selected(r').Some? && !Selected(r').value.loaded
  {
    var r1 := AppendBatch(r, b);
    var r2 := if b.isComplete then r1 else r1.(statusMessage := DisplayingText(r1.index, |r1.pending|));
    var load := FirstLoad(r, r2, b);
    var (r', es) := OnBatch(r, b);
    assert r'.items == r2.items && r'.selected == r2.selected;
    assert es == load || es == load + [ShowBatch(r2.pending, r2.index)];
    if load != [] {
      assert load[0] in es;
    } else {
      assert forall e | e in es :: e.ShowBatch?;
    }
  }

  /** In the default state, Left and Right change the focused pane and
      nothing else, and the focus decides what Up does next: it moves the
      list cursor after Left and changes nothing after Right. */
  lemma DefaultArrowsFocus(r: Record, k: Key, env: Env)
    requires r.state == StateDefault && (k == Left || k == Right)
    ensures var (r1, es) := Step(r, KeyPress(k), env);
      es == [] && r1.focused == (if k == Left then PaneList else PaneViewport)
      && r1.(focused := r.focused) == r
      && var (r2, es2) := Step(r1, KeyPress(Up), env);
      (k == Right ==> r2 == r1 && es2 == [])
      && (k == Left ==> r2.selected == env.cursor && r2.items == r.items)
  {
    assert Step(r, KeyPress(k), env) == DefaultKey(r, k, env);
    var r1 := DefaultKey(r, k, env).0;
    assert Step(r1, KeyPress(Up), env) == DefaultKey(r1, Up, env);
  }

  /** In the default state with the list focused, Up and Down move the
      cursor and ask for a value load exactly when the newly selected item
      is not loaded; with the viewport focused they change nothing. */
  lemma DefaultUpDownLoads(r: Record, k: Key, env: Env)
    requires k == Up || k == Down
    ensures var (r', es) := DefaultKey(r, k, env);
      (r.focused == PaneViewport ==> r' == r && es == [])
      && (r.focused == PaneList ==>
            r' == r.(selected := env.cursor) && (es != [] <==> Selected(r').Some? && !Selected(r').value.loaded))
  {
  }

  /** Ctrl-F flips the mode and rescans exactly when a filter is set. */
  lemma ToggleModeRescans(r: Record)
    ensures var (r', es) := ToggleMode(r);
      r'.fuzzyStrict == !r.fuzzyStrict && r'.fuzzyFilter == r.fuzzyFilter && r'.state == r.state
      && (es != [] <==> r.fuzzyFilter != [])
      && (es != [] ==> RescanStarted(r', es))
  {
  }

  /** The filter dialog opened from the default state shows the current
      filter, focused, with all its callbacks set. */
  lemma FilterDialogOpens(r: Record)
    ensures var (r1, es) := DefaultRunes(r, BindFuzzy);
      r1.state == StateFuzzySearch && r1.filterDialog.input == Input(r.fuzzyFilter, true)
      && r1.filterDialog.hasSubmit && r1.filterDialog.hasCancel && r1.filterDialog.hasToggle
      && es == []
  {
  }

  /** In the filter dialog, Enter makes the dialog's text the filter and
      rescans with it, while Esc clears the filter and rescans only if one
      was set; both return to the default state. */
  lemma FilterDialogAnswers(r: Record, env: Env)
    requires r.filterDialog.hasSubmit && r.filterDialog.hasCancel
    ensures var (r2, es2) := InFilter(r, Enter, env);
      r2.state == StateDefault && r2.fuzzyFilter == r.filterDialog.input.value && RescanStarted(r2, es2)
    ensures var (r3, es3) := InFilter(r, Esc, env);
      r3.state == StateDefault && r3.fuzzyFilter == [] && (es3 != [] <==> r.fuzzyFilter != [])
  {
  }

  /** "x" on a selected item asks for confirmation of its deletion. */
  lemma DeleteAsks(r: Record)
    requires Selected(r).Some?
    ensures var (r1, es) := DefaultRunes(r, BindDelete);
      r1.state == StateConfirmDelete && r1.keyToDelete == Selected(r).value.key
      && r1.confirmDialog.kind == ConfirmDelete && r1.confirmDialog.hasConfirm && r1.confirmDialog.hasCancel
      && es == []
  {
  }

  /** A deletion confirmation answered with "y" deletes the remembered key;
      "n" or Esc returns to the default state forgetting the key; any other
      key changes nothing. */
  lemma ConfirmAnswers(r: Record, k: Key)
    requires r.confirmDialog.kind == ConfirmDelete && r.confirmDialog.hasConfirm && r.confirmDialog.hasCancel
    ensures var (r2, es) := InConfirm(r, k);
      (KeyString(k) in {"y", "Y"} ==> r2.state == StateDefault && es == [Delete(r.keyToDelete)])
      && (KeyString(k) in {"n", "N", "esc"} ==> r2.state == StateDefault && r2.keyToDelete == [] && es == [])
      && (KeyString(k) !in {"y", "Y", "n", "N", "esc"} ==> r2 == r && es == [])
  {
  }
}
