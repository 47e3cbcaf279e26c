/** `model.Update` of the first-generation interface
    (internal/tui/update.go) as a step function over the same record,
    messages and commands as the second generation.

    Every message first goes through the global handlers, which ignore key
    presses, and then to the handler of the current state, whose only
    modelled reaction is to key presses (everything else is forwarded to
    widgets whose handling is left out). So, as in the second generation, a
    key press goes to the handler of the current state and every other
    message to the global handlers.

    This generation has no dialogs: its search and filter inputs are the
    inputs of the record's search and filter dialogs, whose callbacks it
    never sets. Its scans and counts pass the search pattern to the store. */
module TuiUpdate {
  import opened Base
  import opened Decimal
  import opened Items
  import opened Commands
  import opened Dialogs
  import opened App

  /** `scanCmd` and `countCmd` (command.go lines 35-115 and 207-216): both
      use the search pattern, and the scan also the filter and its mode. */
  function Rescan(r: Record): (Record, seq<Effect>) {
    (r.(ready := false), [Scan(r.searchValue, r.fuzzyFilter, r.fuzzyStrict), Count(r.searchValue)])
  }

  /** The reply to a mutating command: the failure text, or the success
      text and a rescan. */
  function Reply(r: Record, err: Option<Str>, failed: Str, done: Str): (Record, seq<Effect>) {
    if err.Some? then (r.(statusMessage := Failure(failed, err.value)), [])
    else Rescan(r.(statusMessage := done))
  }

  /** What a mutation reply changes before the outcome is known: the edit
      and create results return to the default state, and a successful
      switch takes the new database. */
  function Prepared(r: Record, m: Msg): Record
    requires Mutation(m)
  {
    r.(state := if m.EditResult? || m.CreateResult? then StateDefault else r.state,
       db := if m.SwitchedDB? && m.err.None? then m.db else r.db)
  }

  /** `editKeyResultMsg`, `createKeyResultMsg`, `deleteMsg`, `setTTLMsg`,
      `purgeMsg` and `switchDBMsg` (lines 84-144). */
  function Mutate(r: Record, m: Msg): (Record, seq<Effect>)
    requires Mutation(m)
  {
    Reply(Prepared(r, m), m.err, FailedWhat(m), DoneWhat(m))
  }

  /** `scanMsg` (lines 184-192). */
  function OnScanned(r: Record, found: seq<Item>): (Record, seq<Effect>) {
    (r.(pending := found, index := 0, items := []), [ShowBatch(found, 0)])
  }

  /** `scanBatchMsg` (lines 193-219). */
  function OnBatch(r: Record, b: Batch): (Record, seq<Effect>) {
    var r1 := AppendBatch(r, b);
    var load := FirstLoad(r, r1, b);
    if !b.isComplete then (r1, load + [ShowBatch(r1.pending, r1.index)]) else (r1, load)
  }

  /** `"DB %d: %d+ keys found"`. */
  function AtLeastFound(db: int, n: int): Str {
    "DB " + Itoa(db) + ": " + Itoa(n) + "+ keys found"
  }

  /** `countMsg` (lines 220-227): the count, or the scan limit followed by
      a plus sign when the count exceeds it. */
  function OnCounted(r: Record, n: int, maxScanCount: int): (Record, seq<Effect>) {
    var text := if n > maxScanCount then AtLeastFound(r.db, maxScanCount) else KeysFound(r.db, n);
    (r.(statusMessage := text, ready := true), [])
  }

  /** The global handlers of `Update` (lines 27-227). */
  function Global(r: Record, m: Msg, env: Env): (Record, seq<Effect>)
    requires !m.KeyPress?
  {
    match m
    case StatsResult(err) => OnStats(r, err)
    case EditReady(key, tmp, err) => OnEditReady(r, key, tmp, err, false)
    case CreateReady(key, tmp, err) => OnEditReady(r, key, tmp, err, true)
    case EditorFinished(_, err) => OnEditorFinished(r, err)
    case EditResult(_, _) => Mutate(r, m)
    case CreateResult(_, _) => Mutate(r, m)
    case Deleted(_, _) => Mutate(r, m)
    case TTLSet(_, _, _) => Mutate(r, m)
    case Purged(_, _) => Mutate(r, m)
    case SwitchedDB(_, _) => Mutate(r, m)
    case Failed(text) => (r.(statusMessage := text), [])
    case ValueLoaded(load) => OnValueLoaded(r, load)
    case Scanned(found, _, _) => OnScanned(r, found)
    case BatchShown(b) => OnBatch(r, b)
    case Counted(n) => OnCounted(r, n, env.maxScanCount)
    case Background => (r, [])
  }

  // ------------------------------------------------ default state

  /** `handleDefaultState` for a rune key (lines 272-341): the search, filter
      and switch inputs take the focus, the filter input starting from the
      current filter; "r" rescans; "x" on a selected item and "P" ask for
      confirmation. */
  function DefaultRunes(r: Record, t: Str): (Record, seq<Effect>) {
    if t == BindSearch then
      (r.(state := StateSearch, searchDialog := r.searchDialog.(input := Focused(r.searchDialog.input))), [])
    else if t == BindFuzzy then
      (r.(state := StateFuzzySearch, filterDialog := r.filterDialog.(input := Input(r.fuzzyFilter, true))), [])
    else if t == BindSwitchDB then (r.(state := StateSwitchDB, dbInput := Focused(r.dbInput)), [])
    else if t == BindReload then Rescan(r)
    else if t == BindDelete then
      (match Selected(r)
       case Some(it) => (r.(keyToDelete := it.key, state := StateConfirmDelete), [])
       case None => (r, []))
    else if t == BindPurge then (r.(state := StateConfirmPurge), [])
    else SharedRunes(r, t)
  }

  /** Ctrl-F (lines 345-358): toggle the mode, say so, and rescan when a
      filter is set. */
  function ToggleMode(r: Record): (Record, seq<Effect>) {
    var r1 := r.(fuzzyStrict := !r.fuzzyStrict, statusMessage := ModeText(!r.fuzzyStrict));
    if r1.fuzzyFilter != [] then Rescan(r1) else (r1, [])
  }

  /** `handleDefaultState` for a key press (lines 260-397). */
  function DefaultKey(r: Record, k: Key, env: Env): (Record, seq<Effect>) {
    match k
    case Runes(t) => DefaultRunes(r, t)
    case CtrlC => (r, [Quit])
    case CtrlF => ToggleMode(r)
    case Left => (r.(focused := PaneList), [])
    case Right => (r.(focused := PaneViewport), [])
    case Up => if r.focused == PaneList then Navigate(r, env) else (r, [])
    case Down => if r.focused == PaneList then Navigate(r, env) else (r, [])
    case _ => (r, [])
  }

  // ------------------------------------------------ input states

  /** `handleSearchState` (lines 399-432). Esc empties the input and
      returns; Enter makes the input's text the search pattern, empties the
      input, returns and rescans; every other key edits the input. */
  function SearchKey(r: Record, k: Key, env: Env): (Record, seq<Effect>) {
    var d := r.searchDialog;
    if k == Esc then (r.(searchDialog := d.(input := Cleared), state := StateDefault), [])
    else if k == Enter then
      Rescan(r.(searchValue := d.input.value, searchDialog := d.(input := Cleared), state := StateDefault))
    else (r.(searchDialog := d.(input := Typing(env)(d.input))), [])
  }

  /** `handleFuzzySearchState` (lines 434-475). Ctrl-C quits; Ctrl-F flips
      the mode and stays; Esc empties the input and returns; Enter makes
      the input's text the filter, blurs the input without emptying it,
      returns and rescans; every other key edits the input. */
  function FuzzyKey(r: Record, k: Key, env: Env): (Record, seq<Effect>) {
    var d := r.filterDialog;
    if k == CtrlC then (r, [Quit])
    else if k == CtrlF then (r.(fuzzyStrict := !r.fuzzyStrict), [])
    else if k == Esc then (r.(filterDialog := d.(input := Cleared), state := StateDefault), [])
    else if k == Enter then
      Rescan(r.(fuzzyFilter := d.input.value, filterDialog := d.(input := Blurred(d.input)), state := StateDefault))
    else (r.(filterDialog := d.(input := Typing(env)(d.input))), [])
  }

  /** `handleSwitchDBState` (lines 516-554). Esc and Enter empty the input
      and return; Enter then refuses an empty or negative number with a
      message and otherwise starts the switch; every other key edits the
      input. */
  function SwitchDBKey(r: Record, k: Key, env: Env): (Record, seq<Effect>) {
    if k == Esc then (r.(dbInput := Cleared, state := StateDefault), [])
    else if k == Enter then
      var text := r.dbInput.value;
      var db := env.toInt(text);
      var ok := text != [] && db >= 0;
      (r.(dbInput := Cleared, state := StateDefault,
          statusMessage := if ok then r.statusMessage else InvalidDBText,
          ready := if ok then false else r.ready),
       if ok then [SwitchDB(db)] else [])
    else (r.(dbInput := Typing(env)(r.dbInput)), [])
  }

  /** `handleConfirmDeleteState` (lines 477-495). */
  function ConfirmDeleteKey(r: Record, k: Key): (Record, seq<Effect>) {
    var s := KeyString(k);
    if s in {"y", "Y"} then (r.(state := StateDefault), [Delete(r.keyToDelete)])
    else if s in {"n", "N", "esc"} then (r.(state := StateDefault, keyToDelete := []), [])
    else (r, [])
  }

  /** `handleConfirmPurgeState` (lines 497-514); the purge acts on the
      current database. */
  function ConfirmPurgeKey(r: Record, k: Key): (Record, seq<Effect>) {
    var s := KeyString(k);
    if s in {"y", "Y"} then (r.(state := StateDefault), [Purge(r.db)])
    else if s in {"n", "N", "esc"} then (r.(state := StateDefault), [])
    else (r, [])
  }

  /** The state handlers of `Update` for a key press (lines 229-252);
      `handleEditingKeyState` (lines 629-633) ignores every key. */
  function OnKey(r: Record, k: Key, env: Env): (Record, seq<Effect>) {
    match r.state
    case StateDefault => DefaultKey(r, k, env)
    case StateSearch => SearchKey(r, k, env)
    case StateFuzzySearch => FuzzyKey(r, k, env)
    case StateSwitchDB => SwitchDBKey(r, k, env)
    case StateSetTTL => SetTTLKey(r, k, env)
    case StateConfirmDelete => ConfirmDeleteKey(r, k)
    case StateConfirmPurge => ConfirmPurgeKey(r, k)
    case StateHelp => HelpKey(r, k)
    case StateStats => StatsKey(r, k)
    case StateCreateKeyInput => CreateKeyInputKey(r, k, env)
    case StateEditingKey => (r, [])
  }

  /** `model.Update`. */
  function Step(r: Record, m: Msg, env: Env): (Record, seq<Effect>) {
    if m.KeyPress? then OnKey(r, m.pressed, env) else Global(r, m, env)
  }

  // ------------------------------------------------ properties

  /** A rescan has started with the record's search pattern, filter and
      mode, and the record is not ready. */
  predicate RescanStarted(r: Record, es: seq<Effect>) {
    !r.ready && es == [Scan(r.searchValue, r.fuzzyFilter, r.fuzzyStrict), Count(r.searchValue)]
  }

  /** A successful mutation rescans with the success text on the status
      line; a successful switch also takes the new database, and the edit
      and create results return to the default state. Nothing else
      changes: in particular the switch leaves its input alone. */
  lemma MutationSucceeded(r: Record, m: Msg)
    requires Mutation(m) && m.err.None?
    ensures var (r', es) := Mutate(r, m);
      RescanStarted(r', es)
      && r' == r.(state := if m.EditResult? || m.CreateResult? then StateDefault else r.state,
                  db := if m.SwitchedDB? then m.db else r.db,
                  statusMessage := DoneWhat(m), ready := false)
  {
    var p := Prepared(r, m);
    assert Mutate(r, m) == Rescan(p.(statusMessage := DoneWhat(m)));
  }

  /** A failed mutation issues nothing, keeps the database and reports the
      error after the operation's failure prefix; a failed edit or create
      result also returns to the default state. */
  lemma MutationFailed(r: Record, m: Msg)
    requires Mutation(m) && m.err.Some?
    ensures var (r', es) := Mutate(r, m);
      es == []
      && r' == r.(state := if m.EditResult? || m.CreateResult? then StateDefault else r.state,
                  statusMessage := FailedWhat(m) + ": " + m.err.value)
  {
  }

  /** `scanMsg` empties the list and asks for the first batch of the scanned
      items from index zero; the scan's other fields are not looked at. */
  lemma ScanStartsDisplay(r: Record, found: seq<Item>, complete: bool, total: int, env: Env)
    ensures var (r', es) := Global(r, Scanned(found, complete, total), env);
      r' == r.(items := [], pending := found, index := 0)
      && es == [ShowBatch(r'.pending, r'.index)]
  {
  }

  /** `scanBatchMsg` appends an incomplete batch, advances the index by
      its length and asks for the next batch from the new index. */
  lemma BatchAppends(r: Record, b: Batch)
    requires !b.isComplete
    ensures var (r', es) := OnBatch(r, b);
      r'.items == r.items + b.items && r'.pending == r.pending && r'.index == r.index + |b.items|
      && |es| >= 1 && es[|es| - 1] == ShowBatch(r'.pending, r'.index)
  {
  }

  /** A complete batch is appended too, and then the pending items and the
      index are cleared and no further batch is asked for. */
  lemma BatchCompletes(r: Record, b: Batch)
    requires b.isComplete
    ensures var (r', es) := OnBatch(r, b);
      r'.items == r.items + b.items && r'.pending == [] && r'.index == 0
      && forall e | e in es :: !e.ShowBatch?
  {
  }

  /** The count is shown exactly when it does not exceed the scan limit,
      the limit with a plus sign otherwise; the record becomes ready and
      nothing else changes. */
  lemma CountReports(r: Record, n: int, env: Env)
    ensures var (r', es) := Global(r, Counted(n), env);
      es == [] && r' == r.(statusMessage := r'.statusMessage, ready := true)
      && (n <= env.maxScanCount ==> r'.statusMessage == KeysFound(r.db, n))
      && (n > env.maxScanCount ==> r'.statusMessage == AtLeastFound(r.db, env.maxScanCount))
  {
  }

  /** Enter in the search input makes its text the pattern, empties the
      input, returns to the default state and rescans with the new
      pattern. */
  lemma SearchEnter(r: Record, env: Env)
    ensures var (r', es) := SearchKey(r, Enter, env);
      var text := r.searchDialog.input.value;
      r'.searchValue == text && r'.state == StateDefault && r'.searchDialog.input == Cleared
      && es == [Scan(text, r.fuzzyFilter, r.fuzzyStrict), Count(text)] && !r'.ready
  {
  }

  /** Esc in the search input returns to the default state keeping the
      pattern, the list and the filter, and issues nothing; whatever was
      typed before it is forgotten, as if Esc had come first. */
  lemma SearchEsc(r: Record, k: Key, env: Env, env2: Env)
    requires r.state == StateSearch && k != Esc && k != Enter
    ensures var (r1, es) := Step(r, KeyPress(Esc), env);
      es == [] && r1.state == StateDefault && r1.searchDialog.input.value == []
      && r1.searchValue == r.searchValue && r1.fuzzyFilter == r.fuzzyFilter && r1.items == r.items
    ensures Step(Step(r, KeyPress(k), env).0, KeyPress(Esc), env2) == Step(r, KeyPress(Esc), env2)
  {
    assert Step(r, KeyPress(Esc), env) == SearchKey(r, Esc, env);
    assert Step(r, KeyPress(Esc), env2) == SearchKey(r, Esc, env2);
    var r1 := SearchKey(r, k, env).0;
    assert Step(r, KeyPress(k), env) == SearchKey(r, k, env);
    assert Step(r1, KeyPress(Esc), env2) == SearchKey(r1, Esc, env2);
  }

  /** Enter in the filter input makes its text the filter, keeps the text in
      the unfocused input, returns and rescans with the new filter. */
  lemma FuzzyEnter(r: Record, env: Env)
    ensures var (r', es) := FuzzyKey(r, Enter, env);
      var text := r.filterDialog.input.value;
      r'.fuzzyFilter == text && r'.state == StateDefault && r'.filterDialog.input == Input(text, false)
      && es == [Scan(r.searchValue, text, r.fuzzyStrict), Count(r.searchValue)] && !r'.ready
  {
  }

  /** Ctrl-F in the filter input flips the mode and nothing else: the
      state, the filter and the input stay, a second Ctrl-F restores the
      record, and Enter afterwards rescans in the flipped mode. */
  lemma FuzzyToggle(r: Record, env: Env)
    requires r.state == StateFuzzySearch
    ensures var (r1, es) := Step(r, KeyPress(CtrlF), env);
      es == [] && r1.fuzzyStrict == !r.fuzzyStrict && r1.state == StateFuzzySearch
      && r1.filterDialog == r.filterDialog && r1.fuzzyFilter == r.fuzzyFilter
      && Step(r1, KeyPress(CtrlF), env) == (r, [])
      && Step(r1, KeyPress(Enter), env).1
         == [Scan(r.searchValue, r.filterDialog.input.value, !r.fuzzyStrict), Count(r.searchValue)]
  {
    assert Step(r, KeyPress(CtrlF), env) == FuzzyKey(r, CtrlF, env);
    var r1 := FuzzyKey(r, CtrlF, env).0;
    assert Step(r1, KeyPress(CtrlF), env) == FuzzyKey(r1, CtrlF, env);
    assert Step(r1, KeyPress(Enter), env) == FuzzyKey(r1, Enter, env);
  }

  /** Esc in the filter input keeps the filter in force and issues
      nothing: the typed text is dropped, so opening the filter input again
      shows the filter that was in force, not what was typed. */
  lemma FuzzyEsc(r: Record, env: Env)
    requires r.state == StateFuzzySearch
    ensures var (r1, es) := Step(r, KeyPress(Esc), env);
      es == [] && r1.state == StateDefault && r1.fuzzyFilter == r.fuzzyFilter
      && r1.fuzzyStrict == r.fuzzyStrict && r1.items == r.items
      && var (r2, es2) := Step(r1, KeyPress(Runes(BindFuzzy)), env);
      es2 == [] && r2.state == StateFuzzySearch && r2.filterDialog.input == Input(r.fuzzyFilter, true)
  {
    assert Step(r, KeyPress(Esc), env) == FuzzyKey(r, Esc, env);
    var r1 := FuzzyKey(r, Esc, env).0;
    assert Step(r1, KeyPress(Runes(BindFuzzy)), env) == DefaultRunes(r1, BindFuzzy);
  }

  /** Submitting a filter and opening the filter input again shows the
      submitted text, focused. */
  lemma FuzzyReopens(r: Record, env: Env)
    ensures var (r1, _) := FuzzyKey(r, Enter, env);
      var (r2, _) := DefaultRunes(r1, BindFuzzy);
      r2.state == StateFuzzySearch && r2.filterDialog.input == Input(r.filterDialog.input.value, true)
  {
  }

  /** Enter in the switch input empties it and returns to the default
      state; the switch to the parsed number starts exactly when the text
      is not empty and the number not negative, and otherwise the status
      line says the number is invalid. */
  lemma SwitchDBEnter(r: Record, env: Env)
    ensures var (r', es) := SwitchDBKey(r, Enter, env);
      var text := r.dbInput.value;
      var ok := text != [] && env.toInt(text) >= 0;
      r'.state == StateDefault && r'.dbInput == Cleared && r'.db == r.db
      && (ok ==> es == [SwitchDB(env.toInt(text))] && !r'.ready)
      && (!ok ==> es == [] && r'.statusMessage == InvalidDBText)
  {
  }

  /** A deletion confirmation: "y"/"Y" returns and deletes the remembered
      key; "n"/"N"/Esc returns and forgets it; any other key changes
      nothing. */
  lemma ConfirmDeleteAnswers(r: Record, k: Key)
    ensures var (r', es) := ConfirmDeleteKey(r, k);
      (KeyString(k) in {"y", "Y"} ==> r' == r.(state := StateDefault) && es == [Delete(r.keyToDelete)])
      && (KeyString(k) in {"n", "N", "esc"} ==> r' == r.(state := StateDefault, keyToDelete := []) && es == [])
      && (KeyString(k) !in {"y", "Y", "n", "N", "esc"} ==> r' == r && es == [])
  {
  }

  /** A purge confirmation: "y"/"Y" returns and purges the current
      database; "n"/"N"/Esc only returns; any other key changes nothing. */
  lemma ConfirmPurgeAnswers(r: Record, k: Key)
    ensures var (r', es) := ConfirmPurgeKey(r, k);
      (KeyString(k) in {"y", "Y"} ==> r' == r.(state := StateDefault) && es == [Purge(r.db)])
      && (KeyString(k) in {"n", "N", "esc"} ==> r' == r.(state := StateDefault) && es == [])
      && (KeyString(k) !in {"y", "Y", "n", "N", "esc"} ==> r' == r && es == [])
  {
  }

  /** "x" on a selected item followed by "y" deletes exactly that item's
      key and returns to the default state. */
  lemma DeleteFlow(r: Record, env: Env)
    requires r.state == StateDefault && Selected(r).Some?
    ensures var (r1, _) := DefaultRunes(r, BindDelete);
      var (r2, es) := ConfirmDeleteKey(r1, Runes("y"));
      r1.state == StateConfirmDelete && r2.state == StateDefault && es == [Delete(Selected(r).value.key)]
  {
  }

  /** While the editor is open, no key press changes anything; the state
      is left only through the global handlers. */
  lemma EditingIgnoresKeys(r: Record, k: Key, env: Env)
    requires r.state == StateEditingKey
    ensures Step(r, KeyPress(k), env) == (r, [])
  {
  }
}
