# A Dafny model of the todo list editors

The repository holds three curses to-do list editors that share one design. Each keeps a list in
memory. It reads one line at a time through a small line editor that suggests commands. It
classifies the line with an ordered, first-match `handle_input`, changes the list, and writes
the list to SQLite after every command.

- `todocloud.py` has two levels: items with ids, and a sub-item list per item. It keeps four
  mark sets (done, priority, bold, italic) whose keys are the strings `"K"` and `"K_j"`, and
  it has two remote-sync commands, `:s` and `:check`.
- `test_colors.py` is the same editor without the sync commands.
- `usr/local/bin/promcli.py` has one level: plain strings, with the done and priority marks
  kept as sets of list positions.

The model is functional. Every operation is a pure function from a state to a new state. A
Python exception becomes a value: `Option` for an operation that raises before it changes
anything, and a `saved` flag for `handle_input`, whose outer handler skips `save_todos` but
keeps any change made before the exception.

| file | module | what it models |
|---|---|---|
| `pytext.dfy` | `PyText` | `isdigit`, `isalpha`, `isspace`, `strip`, `lower`, `split`, `int()`, `str()` and Python indexing, on ASCII |
| `markkeys.dfy` | `MarkKeys` | mark keys as `ItemKey(id) \| SubKey(parent, pos)`; proof that the f-string keys and the prefix sweep agree with them |
| `positions.dfy` | `Positions` | `del xs[i]`, `range`, `sorted(..., reverse=True)`, and `Without`, the reference meaning of deleting a set of positions |
| `listmodel.dfy` | `ListModel` | the two-level state and `add_item`, `add_subitem`, the eight toggles, `delete_item`, `delete_subitem`, the theme |
| `batch.dfy` | `Batch` | the `:x` command of the two-level editors |
| `dispatch.dfy` | `Dispatch` | `handle_input` of the two-level editors; `sync` selects the variant with `:s` and `:check` |
| `invariant.dfy` | `ListInvariant` | the shape every reachable two-level state keeps |
| `editbuffer.dfy` | `EditBuffer` | `get_suggestions` and the key dispatch of `run`, for all three command tables |
| `session.dfy` | `Session` | the main loop of the two-level editors: keys, committed lines, stop on `:q` |
| `persistence.dfy` | `Persistence` | the rows `save_todos` writes and `load_todos` reads, for the two-level editors |
| `render.dfy` | `Render` | `strikethrough` |
| `flat.dfy` | `Flat` | the single-level editor: its state, toggles, `delete_items`, `handle_input` and rows |

Key codes are integer constants. Up, Down and Backspace carry the numbers ncurses gives them
(259, 258, 263). The loop compares them with 127 (DEL), 9 (Tab) and 10 (Enter). The model
relies on the six numbers being distinct, and on each being a character code: with no
suggestions, an arrow key falls through to `chr(key)` and is typed.

## Model

| member | source | states |
|---|---|---|
| PyText.PyIndex | todocloud.py:448-450 | a Python index is valid exactly from minus the length up to the length; it resolves to itself or to itself plus the length, so position "0" (index -1) is the last item |
| PyText.Strip | todocloud.py:505 | `strip` returns the slice between the leading and the trailing whitespace, and the slice starts and ends with no whitespace |
| PyText.StripIdempotent | todocloud.py:505 | stripping twice is stripping once |
| PyText.StrippedCommand | todocloud.py:507-519 | a line that strips to a `:c...` word is not all digits, does not start with a digit, and has no `:x` prefix with a different second character, so no earlier branch takes it |
| PyText.SplitJoin | todocloud.py:487 | splitting on the separator loses nothing: joining the pieces gives the line back |
| PyText.SplitOnce | todocloud.py:452 | `split(' ', 1)` gives one piece exactly when there is no separator, and otherwise the text before the first separator and the rest |
| PyText.ParseInt | todocloud.py:491-499 | `int()` accepts only text that, once the whitespace `int()` skips is dropped, ends in a digit; a negative result needs a leading minus |
| PyText.PaddedDecimal | todocloud.py:461-466 | a character in front of a number is ignored by `int()` exactly when it is a space or `'\t'` .. `'\r'`; any other non-digit, non-sign character (0x1C .. 0x1F included) makes it raise |
| PyText.ParseDecimal | todocloud.py:491 | `int(str(n)) == n` for every integer, with integers unbounded (CPython's 4300-digit conversion limit is left out) |
| PyText.DecimalInjective | todocloud.py:433 | two integers with the same decimal text are equal |
| PyText.ParseDigits | todocloud.py:448-449 | a line `isdigit` accepts always converts with `int()`, to its digits' value |
| MarkKeys.EncodeInjective | todocloud.py:372-384 | distinct keys are stored as distinct f-strings, so the string sets and the key sets have the same membership |
| MarkKeys.EncodeUnderscore | todocloud.py:379-380 | only sub-item keys contain an underscore |
| MarkKeys.SweepMatchesOwner | todocloud.py:433 | the sweep test (equal to `f"{K}"` or starting with `f"{K}_"`) holds for a key exactly when item K owns it |
| Positions.SortDesc | todocloud.py:500 | `sorted(..., reverse=True)` returns the same multiset of values, largest first |
| Positions.SortDescStrict | todocloud.py:500 | sorting distinct values gives a strictly descending sequence |
| Positions.RemoveLargestFirst | todocloud.py:500-501 | deleting the largest position first and the smaller ones afterwards deletes exactly the original positions |
| Positions.WithoutBlock | usr/local/bin/promcli.py:166-170 | deleting the block of positions lo .. hi-1 cuts exactly that slice out |
| ListModel.AddItem | todocloud.py:362-364 | `add_item` appends one entry with the text and changes nothing else |
| ListModel.AddSubItem | todocloud.py:366-370 | `add_subitem` appends to the parent's list, creating it if needed, and leaves every other list and the marks alone |
| ListModel.AddItemFreshId | todocloud.py:362-364 | the new id is the last id + 1 (1 on an empty list); increasing ids stay increasing and the new id is fresh |
| ListModel.AddSubItemFreshId | todocloud.py:366-370 | the same for a sub-item list |
| ListModel.IdReusedAfterDeletingLast | todocloud.py:362-364 | deleting the last item and adding another hands out the deleted id again |
| ListModel.ToggleItem | todocloud.py:372-377 | an item toggle fails exactly on an out-of-range position; otherwise it flips the item's key in one set and changes nothing else |
| ListModel.ToggleItemTwice | todocloud.py:372-426 | an item toggle applied twice restores the state |
| ListModel.ToggleItemOutOfRange | todocloud.py:372-374 | an out-of-range position raises before any set changes |
| ListModel.ToggleItemMinusOneIsLast | todocloud.py:448-450 | index -1 toggles the last item |
| ListModel.ToggleSub | todocloud.py:379-384 | a sub-item toggle flips exactly the key `SubKey(parent, pos)`, whether or not that sub-item exists |
| ListModel.ToggleSubTwice | todocloud.py:379-426 | a sub-item toggle applied twice restores the state |
| ListModel.DeleteItem | todocloud.py:428-436 | `delete_item` fails exactly on an out-of-range position; otherwise it removes that item and its sub-item list, and drops from all four sets exactly the keys the item owns |
| ListModel.DeleteSubItem | todocloud.py:438-444 | `delete_subitem` is a no-op unless the parent has a list and the position is below its length; otherwise it removes that entry and only the key `SubKey(parent, pos)` |
| ListModel.SubMarkDrift | todocloud.py:438-444 | later sub-item keys are not renumbered: a mark on position pos+1 stays there and now labels the entry that was at pos+2 |
| ListModel.ApplyTheme | todocloud.py:95-107 | the theme changes only to `light` or `dark`; nothing else changes |
| Batch.ParseToken | todocloud.py:489-499 | an empty piece raises IndexError; a sub-item piece is `<digit><letter>` without '-'; a piece without '-' that `int()` accepts, and that is not `<digit><letter>`, is a position, the number minus one |
| Batch.CollectTokens | todocloud.py:487-499 | reading the pieces never changes the items or the theme; only sub-item pieces change anything |
| Batch.DeleteAll | todocloud.py:500-501 | deleting positions one by one never adds items or touches the theme, and it ends without an exception exactly when every position removed one item |
| Batch.RunBatch | todocloud.py:485-503 | `:x` only removes items and never changes the theme |
| Batch.CollectGathering | todocloud.py:489-499 | pieces that are ranges or integers gather their positions in order and change nothing while they are read |
| Batch.CollectStopsAtBadPiece | todocloud.py:487-503 | a malformed or empty piece anywhere stops the piece loop |
| Batch.BadPieceDeletesNoItem | todocloud.py:485-503 | one malformed piece means no item is deleted; with no sub-item pieces, nothing changes at all |
| Batch.SubPieceSurvivesBadPiece | todocloud.py:494-503 | a sub-item piece before a malformed one is already deleted, and the state is saved with that deletion |
| Batch.DeleteAllDescending | todocloud.py:500-501 | deleting strictly descending in-range positions one by one removes exactly those items of the original list, their lists and all their keys |
| Batch.BatchOfPositions | todocloud.py:485-503 | `:x` with ranges and integers naming distinct existing positions, in any order, deletes exactly those items and is saved |
| Batch.PositionPastEndDeletesNothing | todocloud.py:500-525 | a position past the end raises on the first deletion, because the largest position goes first: nothing changes and nothing is saved |
| Dispatch.Classify | todocloud.py:446-520 | the line is a quit exactly when it strips to `:q`, an empty line exactly when it is empty, and a sync command only in the editor with sync |
| Dispatch.HandleInput | todocloud.py:446-525 | `handle_input` returns False exactly when the stripped line is `:q`; quitting saves and changes nothing |
| Dispatch.Apply | todocloud.py:507-525 | only the `:q` action stops the main loop |
| Dispatch.SyncCommands | todocloud.py:510-518 | `:s` and `:check` change nothing locally in the sync editor and are appended as items in the editor without them |
| Dispatch.EmptyLineNothing | todocloud.py:446-525 | an empty line raises IndexError: no change, no save |
| Dispatch.PlainLineAppends | todocloud.py:519-520 | a line starting with no digit, ':' or whitespace becomes a new item |
| Dispatch.NumberTogglesDone | todocloud.py:448-450 | a line of digits N toggles the done mark of item N (0: the last); saved exactly when the position exists |
| Dispatch.DigitSpaceAddsSubItem | todocloud.py:451-456 | `<digit> <text>` adds the stripped text under the item that digit numbers; saved exactly when the item exists |
| Dispatch.TwoBuyMilk | todocloud.py:451-456 | `2 buy milk` adds the sub-item `buy milk` to the second item |
| Dispatch.TwoDigitsAppend | todocloud.py:448-520 | a line starting with two digits that is not all digits is a new item |
| Dispatch.TwelveMilkIsAnItem | todocloud.py:448-520 | `12 milk` is a new item |
| Dispatch.DigitLetterTogglesSubItem | todocloud.py:457-460 | `<digit><letter>` toggles the done key of sub-item position `ord(letter) - 97` under that item |
| Dispatch.MarkCommandLine | todocloud.py:461-484 | `:d N`, `:p N`, `:b N`, `:i N` toggle that mark of item N; an operand `int()` rejects changes nothing and is still saved |
| Dispatch.ThemeLine | todocloud.py:504-506 | `:theme X` adopts `X.strip().lower()` only when it is `light` or `dark`; either way the state is saved |
| Dispatch.BatchLine | todocloud.py:485-487 | `:x` hands the comma-separated rest of the line to the batch deletion |
| ListInvariant.InitialInv | todocloud.py:61-78 | the empty editor has the invariant |
| ListInvariant.DeleteItemInv | todocloud.py:428-436 | `delete_item` keeps the invariant: no list and no mark survives its item |
| ListInvariant.ApplyInv | todocloud.py:446-525 | every action keeps the invariant |
| ListInvariant.HandleInputInv | todocloud.py:446-525 | every line keeps the invariant: ids increase along every list, and every sub-item list and every mark key belongs to a current item |
| ListInvariant.FreshItemUnmarked | todocloud.py:428-436 | in an invariant state a newly added item has no sub-items and no mark, even when its id was used before |
| EditBuffer.Matching | test_colors.py:403-406 | the commands kept are exactly those the buffer is a prefix of, in table order |
| EditBuffer.Suggestions | test_colors.py:403-406 | no suggestions unless the buffer starts with ':'; otherwise exactly the matching commands, in table order |
| EditBuffer.ColonSuggestsAll | test_colors.py:403-406 | a lone ':' suggests the whole table (9, 7 or 5 commands) |
| EditBuffer.PrefixNarrows | test_colors.py:403-406 | `:th` suggests only `:theme ` and `:q` only `:q ` |
| EditBuffer.Press | test_colors.py:422-448 | every key keeps the highlight valid (None exactly when there are no suggestions, otherwise in range); a line is committed exactly on Enter with no highlight, and it is the buffer |
| EditBuffer.UpWraps | test_colors.py:429-431 | Up moves the highlight back by one and wraps from the first to the last; buffer and suggestions are unchanged |
| EditBuffer.DownWraps | test_colors.py:432-434 | Down moves it on by one and wraps from the last to the first |
| EditBuffer.ArrowWithoutSuggestionsTypes | test_colors.py:429-448 | with no suggestions an arrow key falls through and types the character with its code |
| EditBuffer.TabCompletesOnlyCommands | test_colors.py:426-448 | Tab recomputes the suggestions of a buffer starting with ':'; otherwise it types a tab |
| EditBuffer.BackspaceDropsLast | test_colors.py:422-425 | Backspace and DEL drop the last character, if any, and recompute the suggestions |
| EditBuffer.EnterTakesSelection | test_colors.py:435-439 | Enter with a highlight puts that command in the buffer, clears the suggestions and commits nothing |
| EditBuffer.PlainLineCommitted | test_colors.py:435-448 | typing a line with no special key and not starting with ':' and pressing Enter commits exactly that line |
| EditBuffer.QuitTakesTwoEnters | test_colors.py:435-444 | after typing `:q` the first Enter completes `:q ` and the second commits it |
| Session.Step | test_colors.py:418-449 | one key of the loop: only a committed line changes the list, and the loop stops exactly when the committed line strips to `:q` |
| Session.Run | test_colors.py:418-449 | the highlight stays valid over any key sequence, and a stopped loop reads no more keys |
| Session.RunKeepsInvariant | test_colors.py:418-449 | any sequence of keys keeps the list invariant and the highlight valid |
| Session.ReachedFromStart | todocloud.py:536-573 | every state the loop reaches from an empty list has the invariant, so the next new item has no sub-items and no marks |
| Session.RunConcat | test_colors.py:418-449 | running two key sequences one after the other is running them joined |
| Session.TypedQuitStops | test_colors.py:418-449 | the keys `:`, `q`, Enter, Enter end the loop and leave the list as it was |
| Persistence.Load | test_colors.py:112-151 | loading gives one item per item row, in order; a parent has a list exactly when it has sub-item rows, holding their entries in order; the done and priority marks are the flagged rows; bold, italic and the theme start empty and dark |
| Persistence.Save | test_colors.py:153-166 | one item row per item in list order, carrying its id, text, and done and priority flags |
| Persistence.SubRowsOf | test_colors.py:161-164 | one sub-item row per sub-item in list order, flagged from the key of its position |
| Persistence.LoadItemsForm | test_colors.py:121-127 | reading the item rows gives one item per row, in order, marked as the rows say |
| Persistence.LoadSubsForm | test_colors.py:137-145 | reading the sub-item rows gives each parent the entries of its rows, in order, and marks position j when its j-th row is flagged |
| Persistence.SavedRowsByParent | test_colors.py:158-164 | with increasing item ids, the saved rows of a parent are exactly the rows of its list |
| Persistence.RoundTrip | test_colors.py:112-170 | loading what was saved gives back the items, the non-empty lists of items, and the done and priority marks of existing entries; bold, italic and the theme are reset |
| Render.Strikethrough | test_colors.py:38-39 | the result is twice as long; even positions hold the text, odd positions U+0336 |
| Render.UnstrikeStrikethrough | test_colors.py:38-39 | dropping every second character recovers the text |
| Render.StrikethroughAppend | test_colors.py:38-39 | striking a concatenation is concatenating the strikes |
| Render.StrikethroughInjective | test_colors.py:38-39 | different texts strike differently |
| Flat.AddItem | usr/local/bin/promcli.py:151-152 | the text is appended unchanged and the marks stay |
| Flat.AddThenDeleteRestores | usr/local/bin/promcli.py:151-172 | deleting the position an item was just appended at returns normally and gives the list back, and marks that all lay on existing positions come back unchanged |
| Flat.ToggleDone | usr/local/bin/promcli.py:154-158 | flips one position in the done set, with no bounds check; the list is untouched |
| Flat.TogglePriority | usr/local/bin/promcli.py:160-164 | the same for the priority set |
| Flat.TogglesTwice | usr/local/bin/promcli.py:154-164 | each toggle applied twice restores the state |
| Flat.DeleteLoop | usr/local/bin/promcli.py:167-170 | each position removes at most one item, and non-negative positions never raise |
| Flat.DeleteItems | usr/local/bin/promcli.py:166-172 | items are only removed, at most one per position; an exception leaves the marks as they were; with no positions nothing changes, and the call returns normally exactly when both mark sets are empty |
| Flat.Renumber | usr/local/bin/promcli.py:171-172 | a mark survives exactly when it is not a deleted position; below the smallest one it keeps its number, above it moves down by the number of positions |
| Flat.DeleteLoopDescending | usr/local/bin/promcli.py:167-170 | the loop over strictly descending non-negative positions deletes exactly those that exist, skipping the rest |
| Flat.DistinctIndicesDeleteExactly | usr/local/bin/promcli.py:166-172 | for distinct non-negative positions the list loses exactly those positions, and the call returns normally exactly when some position was given or no mark is set |
| Flat.NoIndicesNoChange | usr/local/bin/promcli.py:166-172 | no positions: nothing changes, and the renumbering reads the unbound loop variable, raising, exactly when some mark is set |
| Flat.ContiguousBlockExact | usr/local/bin/promcli.py:166-172 | deleting one block cuts it out, and every mark stays with its item |
| Flat.SplitBlockMarkMovesToWrongItem | usr/local/bin/promcli.py:171 | deleting items 2 and 4 of a, b, c, d with c marked leaves a, c with the mark on a |
| Flat.HandleInput | usr/local/bin/promcli.py:174-216 | the loop stops exactly on a line that strips to `:q`; quitting saves and changes nothing |
| Flat.NumberTogglesPosition | usr/local/bin/promcli.py:176-178 | a line of digits N toggles position N-1 with no bounds check |
| Flat.MarkLine | usr/local/bin/promcli.py:179-190 | `:d N` toggles position N-1 in the done set and `:p N` in the priority set, with no bounds check; an operand `int()` rejects changes nothing; the line is saved either way |
| Flat.PlainLineAppends | usr/local/bin/promcli.py:210-211 | a line that is not all digits and starts with neither ':' nor whitespace is a new item |
| Flat.TwoMilkIsAnItem | usr/local/bin/promcli.py:176-211 | `2 milk` is a new item: this editor has no sub-items |
| Flat.BoldCommandIsAnItem | usr/local/bin/promcli.py:176-211 | `:b 1` is a new item: this editor has no bold command |
| Flat.BatchLine | usr/local/bin/promcli.py:191-203 | `:x` gathers the pieces and deletes them; a piece `int()` rejects abandons the batch and the state is saved as it was |
| Flat.BatchValueErrorNoChange | usr/local/bin/promcli.py:191-203 | a rejected piece anywhere: nothing changes, and the state is saved |
| Flat.BackwardRangeIsEmpty | usr/local/bin/promcli.py:196-198 | a range `A-B` with B < A names no position |
| Flat.BackwardRangeNoChange | usr/local/bin/promcli.py:191-216 | `:x A-B` with B < A changes nothing, and is saved exactly when no mark is set |
| Flat.ThemeLine | usr/local/bin/promcli.py:204-206 | `:theme X` adopts `X.strip().lower()` only when it is `light` or `dark` |
| Flat.Save | usr/local/bin/promcli.py:92-99 | row i carries item i and whether position i is in each mark set |
| Flat.Load | usr/local/bin/promcli.py:71-90 | loading gives one item per row, in order, marked at its position as the row says, with the dark theme |
| Flat.RoundTrip | usr/local/bin/promcli.py:71-103 | loading what was saved keeps the list and the marks on existing positions, drops marks past the end or negative, and resets the theme |

## Left out

- Screen drawing is not modelled: `draw`, `fill_background`, the color pairs of `init_colors` and `apply_theme`. Only the theme name is kept. This includes the row-indexing slip in `todocloud.py`'s `draw`.
- SQLite is not modelled: connecting, creating tables, `DELETE` and `INSERT`, `os.path.exists`. Only the rows themselves are kept, in the order they are written. A `SELECT *` without `ORDER BY` on a table whose `id INTEGER PRIMARY KEY` is the rowid returns its rows in id order. That is write order: the two-level editors write item ids that increase along the list (ListInvariant.HandleInputInv, the assumption Persistence.RoundTrip states), and `promcli.py` leaves `id` to SQLite, which numbers the rows of the emptied table 1, 2, … as they are inserted. For `subtodos` the id order differs from write order across parents, because sub-item ids restart under every parent; but within each parent sub-item ids increase (ListInvariant.Inv), and loading groups the rows by parent, so every list and its marks come back as written.
- The failure of `save_todos` on sub-item rows is not modelled. `subtodos.id` is a primary key, but sub-item ids restart at 1 under every parent, so the real save fails once two parents have sub-items. The model saves every row.
- Persistence.RoundTrip assumes item ids increase along the list. That holds for every state the editor reaches (ListInvariant.HandleInputInv), and a save with repeated item ids would merge their sub-item rows.
- The sync commands' network effects are not modelled: `save_to_http`, `check_db_on_http`, `download_db_if_exists`, `list_db_files`, `file_explorer`, `prompt_for_code`, `generate_code`. `:s` and `:check` are modelled as leaving the list unchanged.
- The key that `:check` waits for inside `handle_input` is not modelled. In the model that key is never read by the line editor.
- Logging, `last_saved` timestamps and random codes are not modelled.
- PyText.ParseInt: `int()`'s limit of 4300 decimal digits is not modelled; a longer literal, which CPython rejects with ValueError, is parsed to its value. The model goes on with that value: in `promcli.py` a `:d` line then marks a huge position where CPython changes nothing, and in the two-level editors the outcome differs in whether the line is saved.
- Flat.HandleInput: the memory the list `range(start-1, end)` needs is not modelled; integers and ranges are unbounded. In `promcli.py` a huge range such as `:x 1-99999999999` raises MemoryError or OverflowError, caught at the end of `handle_input`, so nothing changes and nothing is saved; the model deletes every item it names and saves. Flat.PieceIndices and Flat.BatchLine share this.
- Batch.RunBatch: the same `range` list is unbounded in the model. In `todocloud.py` a huge range raises MemoryError, which the outer handler catches unsaved; in the model the range's end is past the list, so the largest position raises IndexError before any item goes, and the outcome is likewise unchanged items and no save.
- Characters outside ASCII are not modelled: `isdigit`, `isalpha`, `isspace`, `strip`, `lower` and the whitespace `int()` skips follow Python only on ASCII.
- EditBuffer.Press requires a key that is a Unicode scalar value. A surrogate code, which `chr` accepts, cannot be held in a Dafny `char`. A code of 0x110000 or more makes `chr` raise, which ends the program.
- The command descriptions that `todocloud.py` shows next to each suggestion are display text and are not modelled.
- Session models only the two-level loop. The single-level loop has the same key dispatch, covered by EditBuffer with its five-command table; it calls its own `handle_input`, which is `Flat.HandleInput`.
- `prioritize_subitem`, `bold_subitem` and `italic_subitem` are covered by ListModel.ToggleSub with another mark. No line reaches them.
