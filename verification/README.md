# redis-viewer core in Dafny

A model of the logic at the heart of redis-viewer, a terminal browser for a
Redis key space. The program has two interface generations: the older one in
`internal/tui` and the newer one in `internal/ui`. Both are modelled over one
shared application record. The project covers:

- **INFO and number helpers** (`InfoParser`, `Decimal`, `Text`, `Durations`).
  These are the `INFO` reply parser, the digit accumulator `parseInt64`, with
  its 64-bit wrap-around written out, and `formatInt`, `joinStrings`,
  `formatSeconds` and the integer branch of `formatBytes`. Each helper exists
  twice in the source (`internal/redis/parser.go` and `internal/rv/rv.go`).
  Each is defined once here.
- **The key-list pipeline** (`KeyFilter`, `Commands`):
  - the strict, case-insensitive substring filter;
  - draining the key stream, which gives up on the first error;
  - building the unloaded or eagerly typed list items;
  - the fifty-item display batch slicer;
  - TTL normalisation and type dispatch when a value is loaded;
  - `sanitizeFilename`;
  - the limit-capped key count.
- **The application state machine** (`Dialogs`, `App`, `UiUpdate`,
  `TuiUpdate`, `Pipeline`):
  - each generation's `Update` is a step function from a message and the
    record to the next record and a sequence of commands;
  - a command (`Effect`) carries the values its closure captures;
  - the dialog widgets are pure functions from a dialog and an event.

  `Pipeline` composes the scan handler, the batch slicer and the batch
  handler. It proves that for either generation the displayed list ends
  equal to the scanned items, after one batch per fifty items.
- **Display texts** (`Items`, `Durations`, `Numbers`, `StatusLine`):
  - the list rows' descriptions and the value pane's line structure;
  - `formatTTLSeconds`, `formatUptime` and `formatNumber`;
  - the status line's delete prompt, purge prompt and filter label.

  Most texts come with a reader. The proofs show that the text reads back
  to the values it was made from.

Strings are sequences of `char`, one per byte, because the source slices and
measures them with byte-level `len`. Lower-casing and whitespace trimming are
ASCII only. The store, the clock, the list cursor after an arrow key, text
typed into an input, `cast.ToInt` and the `MaxScanCount` limit are all
parameters. `MaxScanCount` is not defined in `internal/constant/constant.go`.

## Model

| member | source | states |
|---|---|---|
| InfoParser.LineEntry | internal/redis/parser.go:10-24 | A line adds a field exactly when, trimmed, it is non-empty, not a `#` header and holds a colon. The field is then the trimmed text before the first colon and the trimmed rest, so values keep their colons. The twin is internal/rv/rv.go:373-387. |
| InfoParser.CollectDomain | internal/redis/parser.go:6-27 | A name is in the parsed map exactly when some line sets it. |
| InfoParser.CollectLastWins | internal/redis/parser.go:6-27 | A field's value in the map is the one from the last line that sets that name. |
| InfoParser.SkippedLineKeepsFields | internal/redis/parser.go:12-16 | A blank, header or colon-less line added to the reply changes no field. |
| InfoParser.LineEntryOfField | internal/redis/parser.go:18-22 | A printable `name:value` line parses back to exactly that name and value. |
| InfoParser.ParseInfoRenderInfo | internal/rv/rv.go:369-389 | Parsing the rendering of distinct, printable fields gives a map that holds exactly those fields with their values. |
| Decimal.Wrap64 | internal/redis/parser.go:29-37 | The result is the int64 congruent to the input, and equals the input when it is already in range. |
| Decimal.ParseInt64 | internal/redis/parser.go:29-37 | The result is the decimal value of the input's digit bytes alone, in order, wrapped to int64. The twin is internal/rv/rv.go:391-399. |
| Decimal.ParseInt64NoDigits | internal/redis/parser.go:29-37 | Text with no digit parses to 0, so `""` and `"abc"` give 0. |
| Decimal.ParseInt64IgnoresSign | internal/redis/parser.go:29-37 | A leading minus sign is ignored like any other non-digit: for every text, `"-"` in front parses the same, so `-d` for digits `d` gives the wrapped value of `d`. |
| Decimal.ParseInt64Wraps | internal/redis/parser.go:29-37 | One past the int64 maximum wraps silently to the minimum. |
| Decimal.FormatInt | internal/redis/parser.go:100-117 | The output is empty exactly for negative input. Otherwise it is digits whose value is the input, with no leading zero except for 0 itself (`"0"`). The twin is internal/rv/rv.go:459-476. |
| Decimal.FormatIntRoundTrip | internal/rv/rv.go:391-476 | For every 0 ≤ n ≤ int64 max, parsing the formatted n gives n back. |
| Decimal.SuffixIgnored | internal/redis/parser.go:29-37 | A unit suffix without digits does not change the parsed value. |
| Decimal.FormatBytes | internal/redis/parser.go:142-146 | Below 1024 bytes the text is exactly `formatInt` of the count followed by `B`, and it parses back to the count. A negative count gives just `B`. |
| Text.JoinStrings | internal/redis/parser.go:120-139 | The loop builds the parts in order with the separator between neighbours, and `""` for no parts. This is checked against a recursive reference join. The twin is internal/rv/rv.go:478-497. |
| Text.TrimSpace | internal/redis/parser.go:12 | The result is a contiguous piece of the input with only whitespace outside it and no whitespace at its ends. It is empty only for all-whitespace input. |
| Text.Lower | internal/ui/commands.go:79-81 | Each byte is lower-cased in place and the length is kept. |
| Text.SplitJoin | internal/redis/parser.go:8 | Splitting a join at the separator gives back the parts, when no part holds the separator. |
| Durations.FormatSecondsMeaning | internal/redis/parser.go:70-97 | For s > 0 the text reads back as day/hour/minute/second parts that add up to s. The parts are in unit order and carried (hours < 24, minutes and seconds < 60), every shown part is nonzero, and each is written unpadded, with exactly the digits its amount needs. The twin is internal/rv/rv.go:430-457. |
| Durations.FormatSecondsNonPositive | internal/redis/parser.go:71-73 | For s ≤ 0 the text is `0s`. |
| Durations.SecondsSlotsShown | internal/redis/parser.go:79-96 | A unit is shown only when nonzero. Seconds are shown when nonzero or when nothing else was. |
| Durations.FormatTTLSecondsMeaning | internal/ui/components/valueview/model.go:114-140 | For s > 0 the text reads back as parts that add up to s with hours < 24 and minutes and seconds < 60. Once a larger unit is shown, hours and minutes follow, padded to two digits, while days are written unpadded. Seconds appear exactly when nonzero or when nothing else was shown. |
| Durations.FormatTTLSecondsExamples | internal/ui/components/valueview/model.go:114-140 | 86400 gives `1d 00h 00m`, 5 gives `05s`, and 0 and -1 give the empty text. |
| Durations.TTLPartsCases | internal/ui/components/valueview/model.go:126-140 | Gives the exact part list for each of the four cases: days, hours, minutes, or seconds only. |
| Durations.FormatUptimeMeaning | internal/ui/view.go:297-308 | For non-negative input the text reads back as `Dd Hh Mm`, `Hh Mm` or `Mm` by magnitude. Hours are < 24 and minutes < 60, the parts add up to the input less its leftover seconds, and each is written unpadded. The twin is internal/tui/view.go:398-409. |
| Durations.FormatUptimeNegative | internal/ui/view.go:297-308 | Without a guard, Go's truncating division sends any negative input to the last case, a non-positive minute count above -60. |
| Durations.UptimeClockNonNegative | internal/ui/view.go:298-300 | For non-negative input the day, hour and minute fields are the Euclidean quotients. |
| Numbers.FormatNumber | internal/ui/view.go:310-324 | The loop's output is the comma grouping of the `%d` text, and texts of at most 3 bytes come back unchanged. The twin is internal/tui/view.go:411-426. |
| Numbers.InsertCommas | internal/ui/view.go:316-324 | The byte loop with its `(len-i)%3` test equals grouping into threes from the right. |
| Numbers.GroupedNonNegative | internal/ui/view.go:316-324 | For n ≥ 0, removing the commas gives the decimal text of n. The first group has 1 to 3 digits and every later group exactly 3. |
| Numbers.ChunksShape | internal/tui/view.go:416-425 | Grouping keeps every byte in order. The first group has `(len-1)%3+1` bytes and the others 3. |
| Numbers.GroupedSignComma | internal/ui/view.go:310-324 | A negative number whose digit count is a multiple of 3 gets a comma right after its minus sign. |
| Numbers.GroupedMinus123 | internal/ui/view.go:310-324 | -123 is written `-,123`. |
| Numbers.FormatNumberFixedMeaning | internal/ui/view.go:310-324 | Grouping only the digits and putting the sign in front never puts a comma after the sign. The groups are still correct. |
| Items.FilterValue | internal/ui/components/keylist/item.go:18-32 | The filter text of a row is its title, the key. The tui twin is internal/tui/item.go:22-31. |
| Items.DescriptionReadsBack | internal/ui/components/keylist/item.go:21-30 | The row description reads back as one of three forms. A failed fetch gives `get error: ` and the error, whether or not the row is loaded. An unloaded row gives its type and `(not loaded)`. A loaded row gives its type and the value's byte length. |
| Items.ErrorDescription | internal/ui/components/keylist/item.go:22-24 | An erroneous row shows `get error: ` and its value in both generations. |
| Items.TuiDescriptionReadsBack | internal/tui/item.go:24-29 | The older description reads back as the error text, or as the key's and the value's byte lengths. |
| Items.ContentReadsBack | internal/ui/components/valueview/model.go:82-110 | The value pane's lines read back as type, optional TTL, key and optional value, in that order. The TTL line is there exactly when the TTL is positive. The value is there exactly when loaded; otherwise the loading placeholder shows. |
| Items.TTLTextMeaning | internal/ui/components/valueview/model.go:102-106 | The TTL line reads back as the formatted duration and the exact seconds. The duration in turn reads back to the same seconds. |
| KeyFilter.ApplyFilter | internal/ui/commands.go:72-92 | An empty filter returns the keys unchanged. The strict mode is the strict filter, and the fuzzy mode is an uninterpreted parameter. |
| KeyFilter.StrictFilterMembers | internal/ui/commands.go:78-84 | A key is kept exactly when its lower-cased form contains the lower-cased filter. The twin is internal/tui/command.go:72-92. |
| KeyFilter.StrictFilterOrdered | internal/ui/commands.go:78-84 | The kept keys are an order-preserving subsequence of the input. |
| KeyFilter.StrictFilterIdempotent | internal/ui/commands.go:78-84 | Filtering twice equals filtering once. |
| KeyFilter.StrictFilterCaseless | internal/ui/commands.go:79 | The filter's own case makes no difference. |
| Commands.Drain | internal/ui/commands.go:37-44 | Drain succeeds exactly when no message carries an error, and then yields every key in order. Otherwise it returns the first error, so no partial list escapes. |
| Commands.ScanStream | internal/ui/commands.go:29-67 | On success, each filtered key gets one unloaded item (type and value empty, TTL -1, no error), in filtered order. The scan is complete and the total is the count before filtering. Any error message gives an error instead. |
| Commands.NormalTTL | internal/tui/command.go:59-69 | A TTL lookup gives its value when it succeeds with a positive TTL, else 0. It is never negative. |
| Commands.TuiScan | internal/tui/command.go:35-115 | The older scan stops on any error message. Otherwise it types each filtered key eagerly, in order, and no item has a negative TTL. |
| Commands.DisplayBatch | internal/ui/commands.go:158-188 | At or past the end the batch is empty and complete. Otherwise it is the slice from the index, between 1 and 50 items long. It is complete exactly when it reaches the end, and an incomplete batch has exactly 50 items. The twin is internal/tui/command.go:177-201. |
| Commands.UnsupportedText | internal/ui/commands.go:132 | The error text is the fixed prefix followed by the type name. |
| Commands.LoadValue | internal/ui/commands.go:95-155 | An unknown TTL (-1) becomes the looked-up TTL if positive, else 0, and any other TTL passes through. An empty type is looked up. A type outside the five supported ones yields the unsupported-type error as both error and value. A fetch error becomes the value. A fetched text is returned verbatim. |
| Commands.TuiLoadValue | internal/tui/command.go:125-175 | Type and TTL pass through. An unsupported type reports its error as both error and value. For a supported type, the error is absent exactly when the fetch succeeded. |
| Commands.LoadValueAgrees | internal/tui/command.go:125-175 | With a known type and TTL, both generations load the same message. |
| Commands.SanitizeFilename | internal/ui/commands.go:403-424 | Each forbidden byte is replaced one for one and no forbidden byte remains. The output is at most 50 bytes, and a short input keeps its length. The twin is internal/tui/command.go:467-488. |
| Commands.CountKeys | internal/rv/rv.go:44-57 | An unlimited count is the number of keys, or 0 on an iterator error. A limited count stops at one past the limit, before an error could surface. |
| Dialogs.ConfirmUpdate | internal/ui/dialogs/confirm.go:48-68 | `y`/`Y` invokes confirm and `n`/`N`/`esc` invokes cancel, each only if set. Anything else gives no command. The dialog never changes. |
| Dialogs.ConfirmRunKeeps | internal/ui/dialogs/confirm.go:24-68 | No run of events changes the kind and data fixed at creation. |
| Dialogs.FilterUpdate | internal/ui/dialogs/filter.go:74-108 | Ctrl-C changes nothing. Ctrl-F toggles and keeps the text. Esc empties and blurs, then cancels. Enter submits the text and blurs without emptying. Other events go only to the input. The mode never changes. |
| Dialogs.FilterRunKeepsMode | internal/ui/dialogs/filter.go:63-108 | Only `SetStrictMode` changes the mode. No run of events does. |
| Dialogs.SetStrictMode | internal/ui/dialogs/filter.go:64-66 | Sets the mode and nothing else. |
| Dialogs.FilterEnterKeepsText | internal/ui/dialogs/filter.go:89-102 | A second Enter resubmits the same text. After Esc, Enter submits the empty text. |
| Dialogs.SearchUpdate | internal/ui/dialogs/search.go:55-80 | Esc empties and blurs, then cancels. Enter submits the text read before the reset, leaving the input empty. A missing callback gives no command. Other events go only to the input. |
| Dialogs.SearchEnterEmpties | internal/ui/dialogs/search.go:68-75 | Right after a submission a second Enter submits the empty text. |
| App.ApplyLoadMeaning | internal/ui/update.go:168-185 | A value reply updates only the first item with that key. That item becomes loaded with the value and error flag, keeping its type and TTL. All other items are unchanged, and no match leaves the list unchanged. |
| App.ValueLoadedUpdatesFirst | internal/ui/update.go:168-185 | The value-reply handler changes only the list, as above, and issues no command. |
| App.AppendBatch | internal/ui/update.go:205-239 | The list becomes the old list followed by the batch. An incomplete batch advances the index by its length. A complete batch clears the pending items and the index. |
| App.FirstLoad | internal/ui/update.go:219-229 | A load is requested exactly when the first non-empty batch lands in an empty list and the selected item is not loaded. The load names that item. |
| App.Navigate | internal/ui/update.go:485-503 | Moving the cursor requests a load exactly when the newly selected item is not loaded. |
| App.SetTTLEsc | internal/ui/update.go:524-529 | Esc empties the input, returns to the default state, forgets the key, issues nothing and keeps the list and status. Asking for the selected item's TTL again then starts from an empty, focused input. |
| App.SetTTLEnter | internal/ui/update.go:530-561 | Enter always returns to the default state and forgets the key. It sets the TTL exactly when the input is non-empty and parses to ≥ 0, and then shows loading. The tui twin is internal/tui/update.go:650-682. |
| App.SetTTLTyping | internal/ui/update.go:515-561 | Any other key only edits the TTL input. A following Esc ends exactly as Esc alone would, and a following Enter sets the remembered key's TTL from the edited text exactly when it is non-empty and not negative. |
| App.CreateKeyEnter | internal/ui/update.go:563-600 | Esc, or Enter with an empty name, returns to the default state without effect. Enter with a name opens the editor state and creates the key. The tui twin is internal/tui/update.go:590-627. |
| App.HelpCloses | internal/ui/update.go:602-614 | `?` or `esc` closes the help. Any other key changes nothing. |
| App.StatsCloses | internal/ui/update.go:616-631 | `i`, `esc` or `q` closes the statistics and `r` reloads them. Any other key changes nothing. |
| UiUpdate.MutationSucceeded | internal/ui/update.go:76-149 | A successful delete, set-TTL, purge, edit, create or switch sets the success text. It also clears `ready`, marks a scan in progress, zeroes the scanned count and issues a scan and a count. A switch also adopts the new database. |
| UiUpdate.MutationFailed | internal/ui/update.go:76-149 | A failed mutation changes only the status text (and leaves the editor or switch state). It issues nothing, and a failed switch keeps the database. |
| UiUpdate.ScanStartsDisplay | internal/ui/update.go:186-198 | A scan result empties the list and makes the result pending from index 0. It asks for one batch. |
| UiUpdate.BatchAppends | internal/ui/update.go:205-239 | An incomplete batch is appended, the index advances by its length, and the next batch is requested. |
| UiUpdate.BatchCompletes | internal/ui/update.go:231-239 | A complete batch is appended, the pending items and index are cleared, and no further batch is requested. |
| UiUpdate.BatchLoadsFirst | internal/ui/update.go:219-229 | A batch triggers a load exactly for the first non-empty batch into an empty list whose selected item is unloaded. |
| UiUpdate.DefaultArrowsFocus | internal/ui/update.go:477-484 | Through `Update` in the default state, Left and Right change only the focus. A following Up then moves the list cursor after Left and changes nothing after Right. |
| UiUpdate.DefaultUpDownLoads | internal/ui/update.go:485-503 | Up/Down with the list focused move the cursor and load exactly an unloaded selection. With the value pane focused they change nothing. |
| UiUpdate.ToggleModeRescans | internal/ui/update.go:464-476 | Ctrl-F flips the strict mode and rescans exactly when a filter is active. |
| UiUpdate.FilterDialogOpens | internal/ui/update.go:332-371 | The filter key opens the dialog focused on the current filter, with all three callbacks set. |
| UiUpdate.FilterDialogAnswers | internal/ui/update.go:332-371 | Submitting adopts the dialog's text as the filter and rescans. Cancelling clears the filter and rescans only if one was active. |
| UiUpdate.DeleteAsks | internal/ui/update.go:403-421 | The delete key asks to confirm deletion of the selected key. |
| UiUpdate.ConfirmAnswers | internal/ui/update.go:403-421 | Confirming deletes the remembered key. Cancelling returns to the default state and forgets the key. Other keys change nothing. |
| TuiUpdate.MutationSucceeded | internal/tui/update.go:84-144 | A successful mutation sets the success text, clears `ready` and rescans with the search pattern. A switch adopts the new database. |
| TuiUpdate.MutationFailed | internal/tui/update.go:84-144 | A failed mutation sets the status text to the operation's failure prefix and the error, and issues nothing. A failed edit or create result also returns to the default state. Nothing else changes, so a failed switch keeps the database. |
| TuiUpdate.ScanStartsDisplay | internal/tui/update.go:184-192 | A scan result empties the list, makes the result pending from index 0 and asks for one batch. |
| TuiUpdate.BatchAppends | internal/tui/update.go:193-219 | An incomplete batch is appended, the index advances, and the next batch is requested. |
| TuiUpdate.BatchCompletes | internal/tui/update.go:193-219 | A complete batch is appended, and the pending items and index are cleared with no further request. |
| TuiUpdate.CountReports | internal/tui/update.go:220-227 | A count above the limit reads `DB d: limit+ keys found`, and any other count is exact. Either way the model becomes ready. |
| TuiUpdate.SearchEnter | internal/tui/update.go:414-425 | Enter adopts the input as the search pattern, empties the input and rescans. |
| TuiUpdate.SearchEsc | internal/tui/update.go:408-413 | Through `Update` in the search state, Esc returns to the default state with the pattern, filter and list kept and no command. Typing before Esc makes no difference to the outcome. |
| TuiUpdate.FuzzyEnter | internal/tui/update.go:458-468 | Enter adopts the input as the filter and rescans. |
| TuiUpdate.FuzzyToggle | internal/tui/update.go:447-451 | Through `Update` in the filter state, Ctrl-F flips the mode and keeps the state, input and filter. A second Ctrl-F restores the record, and a following Enter rescans in the flipped mode. |
| TuiUpdate.FuzzyEsc | internal/tui/update.go:452-457 | Through `Update` in the filter state, Esc keeps the filter and mode and issues nothing. Reopening the filter input shows the filter in force, not the dropped typed text. |
| TuiUpdate.FuzzyReopens | internal/tui/update.go:278-282 | Reopening the filter after a submission shows the submitted text. |
| TuiUpdate.SwitchDBEnter | internal/tui/update.go:530-546 | Enter always returns to the default state. An empty or negative number shows `Invalid database number` and does nothing else. Otherwise it clears `ready` and switches. |
| TuiUpdate.ConfirmDeleteAnswers | internal/tui/update.go:477-495 | `y`/`Y` deletes the remembered key. `n`/`N`/`esc` returns and forgets the key. Other keys change nothing. |
| TuiUpdate.ConfirmPurgeAnswers | internal/tui/update.go:497-514 | `y`/`Y` purges the current database. `n`/`N`/`esc` returns without effect. Other keys change nothing. |
| TuiUpdate.DeleteFlow | internal/tui/update.go:300-307 | The delete key followed by `y` deletes the key that was selected. |
| TuiUpdate.EditingIgnoresKeys | internal/tui/update.go:629-633 | In the editor state every key press is ignored. |
| Pipeline.NextRequest | internal/ui/update.go:231-239 | Finds the batch request the handlers put last, if there is one. |
| Pipeline.ShownSteps | internal/ui/update.go:205-239 | Both generations' batch handlers append the batch. They ask for the next batch from the advanced index, or finish by clearing the pending items. |
| Pipeline.ScannedStarts | internal/ui/update.go:186-198 | Both generations' scan handlers start the display at index 0 of the scanned items. |
| Pipeline.SliceAdvance | internal/ui/commands.go:158-188 | From a multiple of fifty, the slicer's batch extends the shown prefix. It is either a full batch short of the end, or it reaches the end after the last batch. |
| Pipeline.DisplayStep | internal/ui/update.go:205-239 | Each answered request either shows one more full batch and asks for the next, or ends with every item shown. |
| Pipeline.ScanAndDisplay | internal/ui/update.go:186-239 | A scan result followed by all its batches leaves the list equal to the scanned items, nothing pending, after one batch per fifty items (one batch for none). |
| StatusLine.MaxKeyLen | internal/ui/view.go:106-117 | The key's room is the width less the prompt and a margin of 5, but never below 10. The twin is internal/tui/view.go:170-181. |
| StatusLine.ShownKey | internal/ui/view.go:119-122 | A key that fits is shown verbatim. A longer one is shown as its first bytes up to the room, followed by `...`. |
| StatusLine.DeletePromptFits | internal/ui/view.go:106-122 | The prompt is at most 23 bytes longer than the key's room. With at least 35 columns it never outgrows them. |
| StatusLine.DeletePromptShowsPrefix | internal/tui/view.go:170-186 | The prompt always shows a prefix of the key, the whole key when it fits. A cut key reads in full only when the cut-off bytes are themselves `...`. |
| StatusLine.PurgePromptNames | internal/ui/view.go:123-131 | The purge prompt names the database, and different databases give different prompts. |
| StatusLine.DefaultDescription | internal/ui/view.go:132-152 | Without a filter the text is the status message when ready and `Loading...` otherwise. With a filter it opens with a bracket whose next byte tells strict from fuzzy. |
| StatusLine.FilterOverridesLoading | internal/ui/view.go:132-152 | An active filter hides the loading text: readiness makes no difference. |
| StatusLine.FilterLabelShows | internal/tui/view.go:203-216 | The filter appears in full after the mode name, followed by `]`. Then comes a space and the message, or nothing when the message is empty. |
| StatusLine.AvailableWidth | internal/ui/view.go:169-173 | The width for the description is the remaining width, clamped at 0. The twin is internal/tui/view.go:233-237. |

## Left out

- Store access. The network calls through go-redis, the goroutines and channels of `GetKeys`, the cluster branch of `CountKeys`, and the statistics collection are not modelled. A key stream is a sequence of messages, and the type, TTL and value lookups are function parameters.
- Floating point. `parseFloat64`, the fractional branch of `formatBytes` and the statistics rendering are left out. `Decimal.FormatBytes` returns `None` from 1024 bytes up.
- Fuzzy matching. The ranking of `fuzzy.Find` is an uninterpreted function parameter.
- The external editor round trip. Temporary files, `exec.Command` and file reads are outside the model. Their outcomes arrive as messages, and the editor commands are effects.
- Rendering and widgets:
  - lipgloss styles, layout and width measurement (the fixed pieces' widths are inputs);
  - the help and statistics views;
  - JSON indentation and highlighting;
  - word wrapping of the key and the value in the value pane (`wordwrap.String`); the pane's lines keep both unwrapped;
  - the list, viewport, spinner and text-input widgets' own handling of keys, mouse, window size, ticks and cursor blinks. The text after an edit and the cursor after an arrow key are inputs.
  - The inputs' character limits (4 for the database number, 10 for the TTL) are not enforced, because the edited text is an input.
- Keymaps. Bindings are fixed constants. The older keymap has no bindings for set-TTL, purge, statistics, edit and create, though its handlers use them, so the newer bindings stand in for them.
- Source inconsistencies. Neither package compiles as written, and the model follows the evident intent:
  - internal/ui/update.go uses `StateSearch`, `searchDialog` and `searchValue`, which internal/ui/app.go does not declare. They are part of the record here.
  - internal/tui/update.go reads `pendingScanItems`, `pendingScanIndex` and the items' `loaded` flag, which internal/tui/tui.go and internal/tui/item.go do not declare. The shared record and item have them.
  - The switch-database dialog of the newer interface is not part of this model. Its Enter is taken to submit the typed text the way the search dialog does.
  - The newer interface's dialog callbacks capture the `*App` of an earlier `Update` copy. The model applies them to the current record.
- UiUpdate.FilterDialogAnswers: the submitted filter is taken from the dialog's input, because the callback's stale receiver cannot be modelled.
- Commands.CountKeys: an iterator is a key count plus a final error flag, so an error in mid-stream is not modelled separately from one at the end.
- `MaxScanCount` is a parameter, because internal/constant/constant.go does not define it.
- The `INFO` parser's map is a Dafny `map`, so Go's map iteration order, which only the rendering uses, does not arise.

## Findings

| source | as written | input that shows it | evidently intended | confidence | as-written member | corrected member |
|---|---|---|---|---|---|---|
| internal/ui/view.go:310-324 | `formatNumber` groups the whole `%d` text, sign included, so a comma can follow the minus sign (the twin internal/tui/view.go:411-426 does the same) | -123 gives `-,123` | `-123`, the sign in front of grouped digits | not executed | Numbers.GroupedSignComma | Numbers.FormatNumberFixedMeaning |
