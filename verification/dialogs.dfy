/** The dialog widgets of the second-generation interface
    (internal/ui/dialogs): the yes/no confirmation, the fuzzy/strict filter
    input and the search input. Each `Update` is a pure function of the
    dialog and one event; it returns the new dialog and which of its
    callbacks it invoked. What a callback does to the application is decided
    by the application (module UiUpdate), so here a callback is only a flag
    saying whether one was set. The text input widget is reduced to its
    value and its focus; the editing it performs on a forwarded event is a
    parameter. */
module Dialogs {
  import opened Base

  /** The keys the handlers tell apart; `OtherKey` carries the name of any
      other special key. */
  datatype Key = Runes(text: Str) | Enter | Esc | CtrlC | CtrlF | Left | Right | Up | Down | OtherKey(name: Str)

  /** Bubble Tea's `KeyMsg.String()`: the typed text for rune keys and the
      key's name otherwise. */
  function KeyString(k: Key): Str {
    match k
    case Runes(t) => t
    case Enter => "enter"
    case Esc => "esc"
    case CtrlC => "ctrl+c"
    case CtrlF => "ctrl+f"
    case Left => "left"
    case Right => "right"
    case Up => "up"
    case Down => "down"
    case OtherKey(n) => n
  }

  /** A message as a dialog sees it: a key press or anything else (a cursor
      blink, a mouse event, a reply from the store). */
  datatype Event = Press(key: Key) | Other

  /** A text input: its text and whether it has the focus. */
  datatype Input = Input(value: Str, focused: bool)

  /** What an `Update` asks the application to do: nothing, one of the
      dialog's callbacks, or the text input's own command. */
  datatype Outcome = NoCommand | OnConfirm | OnCancel | OnSubmit(value: Str) | OnToggle | InputCommand

  /** ---- Confirmation (confirm.go) ---- */

  datatype ConfirmKind = ConfirmDelete | ConfirmPurge

  /** The data a confirmation carries: the key to delete or the database to
      purge. */
  datatype ConfirmData = KeyData(key: Str) | DbData(db: int)

  datatype ConfirmDialog = ConfirmDialog(kind: ConfirmKind, data: ConfirmData, hasConfirm: bool, hasCancel: bool)

  /** `NewConfirmDialog`: the kind and data fixed, no callbacks yet. */
  function NewConfirmDialog(kind: ConfirmKind, data: ConfirmData): (d: ConfirmDialog)
    ensures d.kind == kind && d.data == data && !d.hasConfirm && !d.hasCancel
  {
    ConfirmDialog(kind, data, false, false)
  }

  /** `SetCallbacks` with both callbacks given. */
  function SetConfirmCallbacks(d: ConfirmDialog): (r: ConfirmDialog)
    ensures r.kind == d.kind && r.data == d.data && r.hasConfirm && r.hasCancel
  {
    d.(hasConfirm := true, hasCancel := true)
  }

  predicate IsYes(e: Event) { e.Press? && KeyString(e.key) in {"y", "Y"} }

  predicate IsNo(e: Event) { e.Press? && KeyString(e.key) in {"n", "N", "esc"} }

  /** `ConfirmDialog.Update`: "y"/"Y" invokes the confirm callback,
      "n"/"N"/"esc" the cancel callback, a missing callback gives no command,
      and the dialog itself never changes. */
  function ConfirmUpdate(d: ConfirmDialog, e: Event): (r: (ConfirmDialog, Outcome))
    ensures r.0 == d
    ensures r.1 == OnConfirm <==> IsYes(e) && d.hasConfirm
    ensures r.1 == OnCancel <==> IsNo(e) && d.hasCancel
    ensures r.1 == NoCommand || r.1 == OnConfirm || r.1 == OnCancel
  {
    if !e.Press? then (d, NoCommand)
    else
      var s := KeyString(e.key);
      if s == "y" || s == "Y" then (d, if d.hasConfirm then OnConfirm else NoCommand)
      else if s == "n" || s == "N" || s == "esc" then (d, if d.hasCancel then OnCancel else NoCommand)
      else (d, NoCommand)
  }

  /** The dialog after a run of events. */
  function ConfirmRun(d: ConfirmDialog, es: seq<Event>): ConfirmDialog
    decreases |es|
  {
    if es == [] then d else ConfirmRun(ConfirmUpdate(d, es[0]).0, es[1..])
  }

  /** However many events it receives, a confirmation keeps the kind and
      data it was created with. */
  lemma {:induction false} ConfirmRunKeeps(kind: ConfirmKind, data: ConfirmData, es: seq<Event>)
    ensures var d := ConfirmRun(SetConfirmCallbacks(NewConfirmDialog(kind, data)), es);
      d.kind == kind && d.data == data
    decreases |es|
  {
    if es != [] {
      ConfirmRunKeeps(kind, data, es[1..]);
    }
  }

  /** ---- Filter input (filter.go) ---- */

  datatype FilterDialog = FilterDialog(input: Input, strictMode: bool, hasSubmit: bool, hasCancel: bool, hasToggle: bool)

  /** `NewFilterDialog`: empty, fuzzy mode, no callbacks. */
  function NewFilterDialog(): (d: FilterDialog)
    ensures d.input.value == [] && !d.strictMode && !d.hasSubmit && !d.hasCancel && !d.hasToggle
  {
    FilterDialog(Input([], false), false, false, false, false)
  }

  /** `SetStrictMode`: the one way to change the mode. */
  function SetStrictMode(d: FilterDialog, strict: bool): (r: FilterDialog)
    ensures r.strictMode == strict && r.input == d.input
    ensures r.hasSubmit == d.hasSubmit && r.hasCancel == d.hasCancel && r.hasToggle == d.hasToggle
  {
    d.(strictMode := strict)
  }

  /** The keys the filter dialog handles itself. */
  predicate FilterKey(e: Event) {
    e.Press? && (e.key.CtrlC? || e.key.CtrlF? || e.key.Esc? || e.key.Enter?)
  }

  /** `FilterDialog.Update`. Ctrl-C leaves everything as it is (the quit
      handler elsewhere takes over); Ctrl-F invokes the mode toggle and
      keeps the text; Esc blurs and empties the input, then invokes cancel;
      Enter submits the current text and blurs the input without emptying
      it; every other event goes to the text input alone. The mode never
      changes here. */
  function FilterUpdate(d: FilterDialog, e: Event, forward: Input -> Input): (r: (FilterDialog, Outcome))
    ensures r.0.strictMode == d.strictMode
    ensures r.0.hasSubmit == d.hasSubmit && r.0.hasCancel == d.hasCancel && r.0.hasToggle == d.hasToggle
    ensures e == Press(CtrlC) ==> r == (d, NoCommand)
    ensures e == Press(CtrlF) ==> r.0 == d && (r.1 == OnToggle <==> d.hasToggle) && r.1 != InputCommand
    ensures e == Press(Esc) ==>
      r.0.input.value == [] && !r.0.input.focused && (r.1 == OnCancel <==> d.hasCancel) && r.1 != InputCommand
    ensures e == Press(Enter) ==>
      r.0.input.value == d.input.value && !r.0.input.focused
      && (r.1 == OnSubmit(d.input.value) <==> d.hasSubmit) && r.1 != InputCommand
    ensures !FilterKey(e) ==> r.0.input == forward(d.input) && r.1 == InputCommand
  {
    if e.Press? && e.key.CtrlC? then (d, NoCommand)
    else if e.Press? && e.key.CtrlF? then (d, if d.hasToggle then OnToggle else NoCommand)
    else if e.Press? && e.key.Esc? then
      (d.(input := Input([], false)), if d.hasCancel then OnCancel else NoCommand)
    else if e.Press? && e.key.Enter? then
      (d.(input := d.input.(focused := false)), if d.hasSubmit then OnSubmit(d.input.value) else NoCommand)
    else (d.(input := forward(d.input)), InputCommand)
  }

  /** The dialog after a run of events. */
  function FilterRun(d: FilterDialog, es: seq<Event>, forward: Input -> Input): FilterDialog
    decreases |es|
  {
    if es == [] then d else FilterRun(FilterUpdate(d, es[0], forward).0, es[1..], forward)
  }

  /** No run of events changes the mode: only `SetStrictMode` does. */
  lemma {:induction false} FilterRunKeepsMode(d: FilterDialog, es: seq<Event>, forward: Input -> Input)
    ensures FilterRun(d, es, forward).strictMode == d.strictMode
    decreases |es|
  {
    if es != [] {
      FilterRunKeepsMode(FilterUpdate(d, es[0], forward).0, es[1..], forward);
    }
  }

  /** Enter does not empty the input: a second Enter submits the same text
      again, while after Esc the next Enter submits the empty text. */
  lemma FilterEnterKeepsText(d: FilterDialog, forward: Input -> Input)
    requires d.hasSubmit
    ensures var d1 := FilterUpdate(d, Press(Enter), forward).0;
      FilterUpdate(d1, Press(Enter), forward).1 == OnSubmit(d.input.value)
    ensures var d1 := FilterUpdate(d, Press(Esc), forward).0;
      FilterUpdate(d1, Press(Enter), forward).1 == OnSubmit([])
  {
  }

  /** ---- Search input (search.go) ---- */

  datatype SearchDialog = SearchDialog(input: Input, hasSubmit: bool, hasCancel: bool)

  /** `SearchDialog.Update`. Esc blurs and empties the input, then invokes
      cancel; Enter reads the text, blurs and empties the input, then
      submits the text it read; a missing callback gives no command; every
      other event goes to the text input alone. */
  function SearchUpdate(d: SearchDialog, e: Event, forward: Input -> Input): (r: (SearchDialog, Outcome))
    ensures r.0.hasSubmit == d.hasSubmit && r.0.hasCancel == d.hasCancel
    ensures e == Press(Esc) ==>
      r.0.input == Input([], false) && (r.1 == OnCancel <==> d.hasCancel) && r.1 != InputCommand
    ensures e == Press(Enter) ==>
      r.0.input == Input([], false) && (r.1 == OnSubmit(d.input.value) <==> d.hasSubmit) && r.1 != InputCommand
    ensures e != Press(Esc) && e != Press(Enter) ==> r.0.input == forward(d.input) && r.1 == InputCommand
  {
    if e == Press(Esc) then
      (d.(input := Input([], false)), if d.hasCancel then OnCancel else NoCommand)
    else if e == Press(Enter) then
      var value := d.input.value;
      (d.(input := Input([], false)), if d.hasSubmit then OnSubmit(value) else NoCommand)
    else (d.(input := forward(d.input)), InputCommand)
  }

  /** The text is submitted once: right after an Enter, a second Enter
      submits the empty text. */
  lemma SearchEnterEmpties(d: SearchDialog, forward: Input -> Input)
    requires d.hasSubmit
    ensures var (d1, o1) := SearchUpdate(d, Press(Enter), forward);
      o1 == OnSubmit(d.input.value) && SearchUpdate(d1, Press(Enter), forward).1 == OnSubmit([])
  {
  }
}
