/** The application record both interface generations keep (the `App` of
    internal/ui/app.go and the `model` of internal/tui/tui.go), the messages
    it reacts to and the commands it issues, and the parts of the update
    handlers the two generations share word for word.

    A command is an `Effect` that carries the values its Go closure
    captures when it is created. Text typed into an input, the list cursor
    after an arrow key and `cast.ToInt`/`cast.ToInt64` are inputs (`Env`).
    The first generation's search and filter dialogs hold its two text
    inputs; the second generation uses the inputs of the same two dialogs as
    its `textinput` and `fuzzyInput`. */
module App {
  import opened Base
  import opened Decimal
  import opened Items
  import opened Commands
  import opened Dialogs

  datatype State = StateDefault | StateSearch | StateFuzzySearch | StateSwitchDB | StateSetTTL
    | StateConfirmDelete | StateConfirmPurge | StateHelp | StateStats | StateCreateKeyInput | StateEditingKey

  datatype Pane = PaneList | PaneViewport

  /** The statistics page: nothing asked for, loading, loaded, or failed
      with an error text. */
  datatype StatsView = NoStats | StatsLoading | StatsLoaded | StatsFailed(err: Str)

  datatype Record = Record(
    state: State,
    focused: Pane,
    items: seq<Item>,        // the list's items
    selected: nat,           // the list's cursor
    pending: seq<Item>,      // pendingScanItems
    index: nat,              // pendingScanIndex
    ready: bool,
    scanInProgress: bool,
    scannedKeyCount: int,
    totalKeysToScan: int,
    db: int,
    searchValue: Str,
    fuzzyFilter: Str,
    fuzzyStrict: bool,
    keyToDelete: Str,
    keyToSetTTL: Str,
    statusMessage: Str,
    wordWrap: bool,
    stats: StatsView,
    editingKey: Str,
    editingTmpFile: Str,
    editingIsCreate: bool,
    searchDialog: SearchDialog,
    filterDialog: FilterDialog,
    confirmDialog: ConfirmDialog,
    dbInput: Input,
    ttlInput: Input,
    createKeyInput: Input)

  /** The messages the handlers react to. An error is its text; `Background`
      stands for the messages whose handling this model leaves out (window
      size, clock tick, mouse, spinner). */
  datatype Msg =
    | KeyPress(pressed: Key)
    | StatsResult(err: Option<Str>)
    | EditReady(key: Str, tmpFile: Str, err: Option<Str>)
    | CreateReady(key: Str, tmpFile: Str, err: Option<Str>)
    | EditorFinished(tmpFile: Str, err: Option<Str>)
    | EditResult(key: Str, err: Option<Str>)
    | CreateResult(key: Str, err: Option<Str>)
    | Deleted(key: Str, err: Option<Str>)
    | TTLSet(key: Str, ttl: int, err: Option<Str>)
    | Purged(db: int, err: Option<Str>)
    | SwitchedDB(db: int, err: Option<Str>)
    | Failed(text: Str)
    | ValueLoaded(load: LoadValueMsg)
    | Scanned(found: seq<Item>, isComplete: bool, totalScanned: int)
    | BatchShown(batch: Batch)
    | Counted(count: int)
    | Background

  /** The commands the handlers issue, with the values they capture. */
  datatype Effect =
    | Scan(pattern: Str, filter: Str, strict: bool)
    | Count(pattern: Str)
    | ShowBatch(pending: seq<Item>, index: nat)
    | Load(key: Str, keyType: Str, ttl: int)
    | Delete(key: Str)
    | SetTTL(key: Str, ttl: int)
    | Purge(db: int)
    | SwitchDB(db: int)
    | EditKey(key: Str, value: Str)
    | CreateKey(name: Str)
    | OpenEditor(tmpFile: Str)
    | ProcessEdited(key: Str, tmpFile: Str)
    | ProcessCreated(key: Str, tmpFile: Str)
    | LoadStats
    | Quit

  /** What the handlers read from the widgets and libraries this model does
      not contain: the text an input holds after it processes a forwarded
      key, the list cursor after an arrow key, `cast.ToInt`/`cast.ToInt64`,
      and the scan limit `MaxScanCount` (referred to but not defined in
      internal/constant/constant.go). */
  datatype Env = Env(edited: Str, cursor: nat, toInt: Str -> int, maxScanCount: int)

  /** The text input's own handling of a forwarded key. */
  function Typing(env: Env): Input -> Input {
    (i: Input) => i.(value := env.edited)
  }

  /** The list's selected item, if the cursor is on one. */
  function Selected(r: Record): (s: Option<Item>)
    ensures s.Some? <==> r.selected < |r.items|
    ensures s.Some? ==> s.value == r.items[r.selected]
  {
    if r.selected < |r.items| then Some(r.items[r.selected]) else None
  }

  function Quote(s: Str): Str { "'" + s + "'" }

  /** `"DB %d: %d keys found"`. */
  function KeysFound(db: int, n: int): Str {
    "DB " + Itoa(db) + ": " + Itoa(n) + " keys found"
  }

  /** `"Key '%s' <verb> successfully"`. */
  function Done(key: Str, verb: Str): Str { "Key " + Quote(key) + " " + verb + " successfully" }

  /** The status text after a TTL change: removed for a TTL of zero or
      less, set otherwise. */
  function TTLDoneText(key: Str, ttl: int): Str {
    if ttl <= 0 then "TTL removed from key " + Quote(key) + " (now persistent)"
    else "TTL set to " + Itoa(ttl) + " seconds for key " + Quote(key)
  }

  function PurgedText(db: int): Str { "Database " + Itoa(db) + " purged successfully" }

  function SwitchedText(db: int): Str { "Switched to database " + Itoa(db) }

  function ScanningText(total: int): Str { "Scanning... " + Itoa(total) + " keys processed" }

  function DisplayingText(shown: int, total: int): Str { "Displaying... " + Itoa(shown) + "/" + Itoa(total) + " keys" }

  const TTLEmptyText: Str := "TTL value cannot be empty. Use 0 to remove TTL."
  const TTLNegativeText: Str := "TTL value must be 0 or positive"
  const NameEmptyText: Str := "Key name cannot be empty"
  const InvalidDBText: Str := "Invalid database number"

  function OpeningCreateText(name: Str): Str { "Opening editor to create key " + Quote(name) + "..." }

  function OpeningEditText(key: Str): Str { "Opening editor for key " + Quote(key) + "..." }

  /** The status text of a failure: a fixed description, a colon and the
      error text. */
  function Failure(what: Str, err: Str): Str { what + ": " + err }

  function Blurred(i: Input): Input { i.(focused := false) }

  function Focused(i: Input): Input { i.(focused := true) }

  /** Blur and Reset: no focus, no text. */
  const Cleared: Input := Input([], false)

  // ------------------------------------------------ value loading

  /** The item a loaded value turns `it` into: value, error flag and the
      loaded mark from the message; type, key and TTL kept. */
  function LoadedItem(it: Item, m: LoadValueMsg): Item {
    it.(val := m.val, err := m.err.Some?, loaded := true)
  }

  /** `i` is the first position holding `key`. */
  predicate FirstWithKey(items: seq<Item>, i: int, key: Str) {
    0 <= i < |items| && items[i].key == key && forall j | 0 <= j < i :: items[j].key != key
  }

  /** The `LoadValueMsg` handler's loop: the first item whose key matches
      is replaced, then the loop stops. */
  function ApplyLoad(items: seq<Item>, m: LoadValueMsg): (r: seq<Item>)
    ensures |r| == |items|
    decreases |items|
  {
    if items == [] then []
    else if items[0].key == m.key then [LoadedItem(items[0], m)] + items[1..]
    else [items[0]] + ApplyLoad(items[1..], m)
  }

  /** Only the first item with the loaded key changes, and it changes into
      the loaded item; with no such item nothing changes. */
  lemma {:induction false} ApplyLoadMeaning(items: seq<Item>, m: LoadValueMsg)
    ensures forall i | 0 <= i < |items| ::
      ApplyLoad(items, m)[i] == (if FirstWithKey(items, i, m.key) then LoadedItem(items[i], m) else items[i])
    ensures (forall i | 0 <= i < |items| :: items[i].key != m.key) ==> ApplyLoad(items, m) == items
    decreases |items|
  {
    if items != [] && items[0].key != m.key {
      var rest := items[1..];
      ApplyLoadMeaning(rest, m);
      forall i | 1 <= i < |items|
        ensures FirstWithKey(items, i, m.key) <==> FirstWithKey(rest, i - 1, m.key)
      {
        if FirstWithKey(rest, i - 1, m.key) {
          forall j | 0 <= j < i ensures items[j].key != m.key {
            if j > 0 { assert items[j] == rest[j - 1]; }
          }
        }
        if FirstWithKey(items, i, m.key) {
          forall j | 0 <= j < i - 1 ensures rest[j].key != m.key {
            assert rest[j] == items[j + 1];
          }
        }
      }
    }
  }

  // ------------------------------------------------ batches

  /** The list part of the `ScanBatchMsg` handler: the batch is appended and
      the index advanced by its length; a complete batch clears the pending
      items and the index. */
  function AppendBatch(r: Record, b: Batch): (r': Record)
    ensures r'.items == r.items + b.items
    ensures !b.isComplete ==> r'.pending == r.pending && r'.index == r.index + |b.items|
    ensures b.isComplete ==> r'.pending == [] && r'.index == 0
  {
    var r1 := r.(items := r.items + b.items, index := r.index + |b.items|);
    if b.isComplete then r1.(pending := [], index := 0) else r1
  }

  /** The value load the first batch into an empty list starts: one for the
      selected item when it is not loaded yet. */
  function FirstLoad(before: Record, after: Record, b: Batch): (es: seq<Effect>)
    ensures es != [] <==> (before.items == [] && b.items != [] && Selected(after).Some? && !Selected(after).value.loaded)
    ensures es != [] ==> es == [Load(Selected(after).value.key, Selected(after).value.keyType, Selected(after).value.ttlSeconds)]
  {
    if before.items == [] && b.items != [] then
      match Selected(after)
      case Some(it) => if !it.loaded then [Load(it.key, it.keyType, it.ttlSeconds)] else []
      case None => []
    else []
  }

  // ------------------------------------------------ shared global handlers

  const StatsFailedWhat: Str := "Failed to load stats"
  const PrepareCreateWhat: Str := "Failed to prepare create"
  const PrepareEditWhat: Str := "Failed to prepare edit"
  const EditorFailedWhat: Str := "Editor failed"

  /** `StatsMsg` (lines 28-39). */
  function OnStats(r: Record, err: Option<Str>): (Record, seq<Effect>) {
    if err.Some? then (r.(statusMessage := Failure(StatsFailedWhat, err.value), stats := StatsFailed(err.value)), [])
    else (r.(stats := StatsLoaded), [])
  }

  /** `EditKeyMsg` and `CreateKeyMsg` (lines 40-59): remember what is
      edited and open the editor, or return to the default state. */
  function OnEditReady(r: Record, key: Str, tmp: Str, err: Option<Str>, create: bool): (Record, seq<Effect>) {
    if err.Some? then
      var what := if create then PrepareCreateWhat else PrepareEditWhat;
      (r.(state := StateDefault, statusMessage := Failure(what, err.value)), [])
    else (r.(editingKey := key, editingTmpFile := tmp, editingIsCreate := create), [OpenEditor(tmp)])
  }

  /** `EditorFinishedMsg` (lines 60-75): process the edited file, then
      forget it. */
  function OnEditorFinished(r: Record, err: Option<Str>): (Record, seq<Effect>) {
    if err.Some? then
      (r.(state := StateDefault, statusMessage := Failure(EditorFailedWhat, err.value), editingKey := [], editingTmpFile := []), [])
    else
      var e := if r.editingIsCreate then ProcessCreated(r.editingKey, r.editingTmpFile)
               else ProcessEdited(r.editingKey, r.editingTmpFile);
      (r.(editingKey := [], editingTmpFile := []), [e])
  }

  /** The replies to the mutating commands. */
  predicate Mutation(m: Msg) {
    m.EditResult? || m.CreateResult? || m.Deleted? || m.TTLSet? || m.Purged? || m.SwitchedDB?
  }

  /** The failure prefix of a mutation reply. */
  function FailedWhat(m: Msg): Str
    requires Mutation(m)
  {
    match m
    case EditResult(_, _) => "Failed to update key"
    case CreateResult(_, _) => "Failed to create key"
    case Deleted(_, _) => "Failed to delete key"
    case TTLSet(_, _, _) => "Failed to set TTL"
    case Purged(_, _) => "Failed to purge database"
    case SwitchedDB(_, _) => "Failed to switch database"
  }

  /** The success text of a mutation reply. */
  function DoneWhat(m: Msg): Str
    requires Mutation(m)
  {
    match m
    case EditResult(key, _) => Done(key, "updated")
    case CreateResult(key, _) => Done(key, "created")
    case Deleted(key, _) => Done(key, "deleted")
    case TTLSet(key, ttl, _) => TTLDoneText(key, ttl)
    case Purged(db, _) => PurgedText(db)
    case SwitchedDB(db, _) => SwitchedText(db)
  }

  /** `LoadValueMsg`: the list with the loaded value in place. */
  function OnValueLoaded(r: Record, load: LoadValueMsg): (Record, seq<Effect>) {
    (r.(items := ApplyLoad(r.items, load)), [])
  }

  /** `LoadValueMsg` changes only the list: the first item with the loaded
      key takes the value, the error flag and the loaded mark, keeping its
      type and TTL; without such an item the list stays as it was. */
  lemma ValueLoadedUpdatesFirst(r: Record, load: LoadValueMsg)
    ensures var (r', es) := OnValueLoaded(r, load);
      es == [] && r' == r.(items := r'.items) && |r'.items| == |r.items|
      && (forall i | 0 <= i < |r.items| ::
            r'.items[i] == (if FirstWithKey(r.items, i, load.key) then LoadedItem(r.items[i], load) else r.items[i]))
      && ((forall i | 0 <= i < |r.items| :: r.items[i].key != load.key) ==> r'.items == r.items)
  {
    ApplyLoadMeaning(r.items, load);
  }

  // ------------------------------------------------ shared key handlers

  /** The rune bindings of internal/ui/keymap.go. */
  const BindSearch: Str := "s"
  const BindFuzzy: Str := "/"
  const BindSwitchDB: Str := "d"
  const BindSetTTL: Str := "t"
  const BindReload: Str := "r"
  const BindDelete: Str := "x"
  const BindPurge: Str := "P"
  const BindWrap: Str := "w"
  const BindHelp: Str := "?"
  const BindStats: Str := "i"
  const BindEdit: Str := "e"
  const BindCreate: Str := "n"


  /** The value load an arrow key in the focused list starts: one for the
      newly selected item when it is not loaded yet. */
  function Navigate(r: Record, env: Env): (res: (Record, seq<Effect>))
    ensures res.0 == r.(selected := env.cursor)
    ensures res.1 != [] <==> Selected(res.0).Some? && !Selected(res.0).value.loaded
    ensures res.1 != [] ==> res.1 == [Load(Selected(res.0).value.key, Selected(res.0).value.keyType, Selected(res.0).value.ttlSeconds)]
  {
    var r1 := r.(selected := env.cursor);
    match Selected(r1)
    case Some(it) => (r1, if !it.loaded then [Load(it.key, it.keyType, it.ttlSeconds)] else [])
    case None => (r1, [])
  }

  /** `handleSetTTLState`, the same in both generations. Esc and Enter both
      leave the state and forget the key; Enter sets the TTL only for a
      non-empty text whose value is not negative, and explains the refusal
      otherwise; every other key goes to the input. */
  function SetTTLKey(r: Record, k: Key, env: Env): (res: (Record, seq<Effect>))
  {
    match k
    case Esc => (r.(ttlInput := Cleared, state := StateDefault, keyToSetTTL := []), [])
    case Enter =>
      var text := r.ttlInput.value;
      var ttl := env.toInt(text);
      var (status, ready, es) :=
        if text == [] then (TTLEmptyText, r.ready, [])
        else if ttl < 0 then (TTLNegativeText, r.ready, [])
        else (r.statusMessage, false, [SetTTL(r.keyToSetTTL, ttl)]);
      (r.(ttlInput := Cleared, state := StateDefault, keyToSetTTL := [], statusMessage := status, ready := ready), es)
    case _ => (r.(ttlInput := Typing(env)(r.ttlInput)), [])
  }

  /** `handleCreateKeyInputState`, the same in both generations. Esc goes
      back; Enter with an empty name goes back with a message; a name opens
      the editor for the new key. */
  function CreateKeyInputKey(r: Record, k: Key, env: Env): (res: (Record, seq<Effect>))
  {
    match k
    case Esc => (r.(createKeyInput := Cleared, state := StateDefault), [])
    case Enter =>
      var name := r.createKeyInput.value;
      var r1 := r.(createKeyInput := Cleared);
      if name == [] then (r1.(statusMessage := NameEmptyText, state := StateDefault), [])
      else
        (r1.(state := StateEditingKey, statusMessage := OpeningCreateText(name)),
         [CreateKey(name)])
    case _ => (r.(createKeyInput := Typing(env)(r.createKeyInput)), [])
  }

  /** `handleHelpState`: "?" or "esc" closes the help page. */
  function HelpKey(r: Record, k: Key): (res: (Record, seq<Effect>))
  {
    if KeyString(k) in {"?", "esc"} then (r.(state := StateDefault), []) else (r, [])
  }

  /** `handleStatsState`: "i", "esc" or "q" closes the page; "r" reloads. */
  function StatsKey(r: Record, k: Key): (res: (Record, seq<Effect>))
  {
    var s := KeyString(k);
    if s in {"i", "esc", "q"} then (r.(state := StateDefault), [])
    else if s == "r" then (r.(stats := StatsLoading), [LoadStats])
    else (r, [])
  }

  /** The rune keys of `handleDefaultState` that both generations handle
      alike: "t" asks for the TTL of the selected item, "w" toggles word
      wrap, "?" opens the help page, "i" opens the statistics page and
      loads it, "e" opens the editor on the selected item, "n" asks for the
      name of a new key. Without a selected item "t" and "e" do nothing, and
      so does every other rune key. */
  function SharedRunes(r: Record, t: Str): (Record, seq<Effect>) {
    if t == BindSetTTL then
      (match Selected(r)
       case Some(it) => (r.(keyToSetTTL := it.key, state := StateSetTTL, ttlInput := Focused(r.ttlInput)), [])
       case None => (r, []))
    else if t == BindWrap then (r.(wordWrap := !r.wordWrap, statusMessage := WrapText(!r.wordWrap)), [])
    else if t == BindHelp then (r.(state := StateHelp), [])
    else if t == BindStats then (r.(state := StateStats, stats := StatsLoading), [LoadStats])
    else if t == BindEdit then
      (match Selected(r)
       case Some(it) => (r.(state := StateEditingKey, statusMessage := OpeningEditText(it.key)), [EditKey(it.key, it.val)])
       case None => (r, []))
    else if t == BindCreate then (r.(state := StateCreateKeyInput, createKeyInput := Focused(r.createKeyInput)), [])
    else (r, [])
  }

  /** In the TTL input, Esc returns to the default state, empties the
      input and forgets the key, without a command, and leaves the list as
      it was: asking for the TTL of the selected item again starts from an
      empty input. */
  lemma SetTTLEsc(r: Record, env: Env)
    ensures var (r1, es) := SetTTLKey(r, Esc, env);
      es == [] && r1.state == StateDefault && r1.keyToSetTTL == [] && r1.ttlInput.value == []
      && r1.items == r.items && r1.selected == r.selected && r1.statusMessage == r.statusMessage
      && (Selected(r).Some? ==>
            var (r2, es2) := SharedRunes(r1, BindSetTTL);
            es2 == [] && r2.state == StateSetTTL && r2.keyToSetTTL == Selected(r).value.key
            && r2.ttlInput == Input([], true))
  {
    var r1 := SetTTLKey(r, Esc, env).0;
    assert r1 == r.(ttlInput := Cleared, state := StateDefault, keyToSetTTL := []);
    assert Selected(r1) == Selected(r);
  }

  /** Enter does the same, and sets the TTL of the remembered key exactly
      when the text is not empty and its value is not negative. */
  lemma SetTTLEnter(r: Record, env: Env)
    ensures var (r', es) := SetTTLKey(r, Enter, env);
      var text := r.ttlInput.value;
      r'.state == StateDefault && r'.keyToSetTTL == [] && r'.ttlInput == Cleared
      && (es != [] <==> text != [] && env.toInt(text) >= 0)
      && (es != [] ==> es == [SetTTL(r.keyToSetTTL, env.toInt(text))] && !r'.ready)
  {
  }

  /** Every other key in the TTL input edits the input and nothing else:
      Esc afterwards ends exactly as Esc before it would have, and Enter
      afterwards sets the TTL from the edited text. */
  lemma SetTTLTyping(r: Record, k: Key, env: Env, env2: Env)
    requires k != Esc && k != Enter
    ensures var (r1, es) := SetTTLKey(r, k, env);
      es == [] && r1.ttlInput.value == env.edited && r1.state == r.state && r1.keyToSetTTL == r.keyToSetTTL
      && SetTTLKey(r1, Esc, env2) == SetTTLKey(r, Esc, env2)
      && var (r2, es2) := SetTTLKey(r1, Enter, env2);
      (es2 != [] <==> env.edited != [] && env2.toInt(env.edited) >= 0)
      && (es2 != [] ==> es2 == [SetTTL(r.keyToSetTTL, env2.toInt(env.edited))])
  {
  }

  /** In the key-name input, Enter with a name opens the editor for a new
      key of that name; Enter with no name and Esc return to the default
      state without a command. The input is emptied either way. */
  lemma CreateKeyEnter(r: Record, k: Key, env: Env)
    requires k == Esc || k == Enter
    ensures var (r', es) := CreateKeyInputKey(r, k, env);
      var name := r.createKeyInput.value;
      r'.createKeyInput == Cleared
      && (es != [] <==> k == Enter && name != [])
      && (es != [] ==> r'.state == StateEditingKey && es == [CreateKey(name)])
      && (es == [] ==> r'.state == StateDefault)
  {
  }

  /** The help page closes on "?" or Esc and ignores every other key. */
  lemma HelpCloses(r: Record, k: Key)
    ensures var (r', es) := HelpKey(r, k);
      es == [] && (r' == r.(state := StateDefault) || r' == r)
      && (r'.state == StateDefault <==> KeyString(k) in {"?", "esc"} || r.state == StateDefault)
  {
  }

  /** The statistics page closes on "i", Esc or "q", reloads on "r", and
      ignores every other key. */
  lemma StatsCloses(r: Record, k: Key)
    requires r.state == StateStats
    ensures var (r', es) := StatsKey(r, k);
      (KeyString(k) in {"i", "esc", "q"} ==> r' == r.(state := StateDefault) && es == [])
      && (KeyString(k) == "r" ==> r' == r.(stats := StatsLoading) && es == [LoadStats])
      && (KeyString(k) !in {"i", "esc", "q", "r"} ==> r' == r && es == [])
  {
  }

  /** The status line after a mode toggle. */
  function ModeText(strict: bool): Str {
    if strict then "Switched to strict mode" else "Switched to fuzzy mode"
  }

  /** The status line after a word-wrap toggle. */
  function WrapText(wrap: bool): Str {
    if wrap then "Word wrap enabled" else "Word wrap disabled"
  }
}
