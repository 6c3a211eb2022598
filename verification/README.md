# Terminal menu application: the `App` state machine

A Dafny model of the menu application in `src/main.rs` of rust-cli. The menu
has six fixed entries, "Item 1" to "Item 5" and then "Quit". The `App` object
has four fields:

- the entries;
- the index of the highlighted entry;
- the text in the result pane;
- the description of the highlighted entry.

Down and Up move the highlight, wrapping at both ends. Each move shows the
description of the newly highlighted entry. Enter on a generic item shows that
item's canned result. Enter on "Quit", or the key `q`, ends the input loop.

The project has three modules:

- `MenuContent` (`content.dfy`) holds the fixed content:
  - the labels;
  - `item_1_function` … `item_5_function`;
  - the two `match` tables keyed by label: the result text (`ExecuteResult`) and the description (`Description`).
- `MenuModel` (`model.dfy`) holds the application state as a value (`AppState`).
  - Each operation is a function of the old state, and one iteration of the input loop is `StepState`.
  - `RunEvents` runs the loop over a finite list of events.
  - The lemmas state what the application promises: the invariant, wrap-around over any number of presses, what each key does, and which texts the panes can never show.
- `MenuApp` (`app.dfy`) holds the class `App`. Its fields are updated in place by the methods `Next`, `Previous`, `ExecuteSelectedItem`, `UpdateSelectedText` and `Step`, and by the loop `RunApp`.
  - Each method is proved to change the object exactly as the matching `MenuModel` function changes the state value.
  - So every lemma of `MenuModel` also holds of the object.

Two details of the code shape the model:

- At construction the description field is left empty (src/main.rs:64). It is not computed for the first entry.
- `execute_selected_item` on "Quit" would set the result to "Quitting the application...". The loop never calls it there: Enter on "Quit" returns first (src/main.rs:145-147). So `ExecuteResult` keeps that arm, and `FallbacksNeverShown` proves the message is never displayed.

## Model

| member | source | states |
|---|---|---|
| MenuContent.LabelsDistinct | src/main.rs:54-61 | the menu has six pairwise distinct labels, and "Quit" is the last |
| MenuContent.ExecuteResult | src/main.rs:86-96 | a generic item's label gives that item's canned result; the quitting message is given exactly for "Quit"; "Unknown Item" is given exactly for a label not in the menu; the text is never empty |
| MenuContent.Description | src/main.rs:98-108 | a generic item gets its canned description; "Quit" gets "You have selected Quit"; "Unknown selection" is given exactly for a label not in the menu; the text is never empty |
| MenuContent.Item1Function | src/main.rs:111-113 | returns the canned result of the first entry, "Item 1", equal to the source literal |
| MenuContent.Item2Function | src/main.rs:115-117 | returns the canned result of the second entry, "Item 2", equal to the source literal |
| MenuContent.Item3Function | src/main.rs:119-121 | returns the canned result of the third entry, "Item 3", equal to the source literal |
| MenuContent.Item4Function | src/main.rs:123-125 | returns the canned result of the fourth entry, "Item 4", equal to the source literal |
| MenuContent.Item5Function | src/main.rs:127-129 | returns the canned result of the fifth entry, "Item 5", equal to the source literal |
| MenuContent.CannedResultInjective | src/main.rs:111-129 | different labels give different canned results, so the five item texts are pairwise distinct |
| MenuContent.CannedDescriptionInjective | src/main.rs:99-105 | different labels give different canned descriptions, so the five item descriptions are pairwise distinct |
| MenuModel.Init | src/main.rs:52-65 | the new application satisfies the invariant: the six labels, index 0 in range |
| MenuModel.SelectedLabel | src/main.rs:82-84 | under the invariant, the highlighted label is one of the menu's, so neither table reaches its fallback arm |
| MenuModel.RefreshState | src/main.rs:98-108 | the description becomes that of the highlighted label; entries, index and result stay |
| MenuModel.NextState | src/main.rs:68-71 | the index advances by one and wraps from the last entry to 0; the description is refreshed; entries and result stay |
| MenuModel.PreviousState | src/main.rs:73-80 | the index becomes (index - 1) mod 6, so from 0 it goes to the last entry; the description is refreshed; entries and result stay |
| MenuModel.ExecuteState | src/main.rs:86-96 | the result becomes the table's text for the highlighted label, never "Unknown Item"; everything else stays |
| MenuModel.StepState | src/main.rs:135-151 | the invariant is kept; the loop ends exactly on `q`, or on Enter with "Quit" highlighted; when it ends, nothing changes |
| MenuModel.RunEvents | src/main.rs:131-154 | running the loop over any events keeps the invariant |
| MenuModel.NextThenPrevious | src/main.rs:68-80 | Down then Up restores the index, and the description is that of the restored entry |
| MenuModel.PreviousThenNext | src/main.rs:68-80 | Up then Down restores the index, and the description is that of the restored entry |
| MenuModel.ArrowKeysMove | src/main.rs:138-143 | Down moves the highlight as `next` does and Up as `previous` does; neither ends the loop |
| MenuModel.QuitKeyTerminates | src/main.rs:137-137 | `q` ends the loop from any state and changes nothing |
| MenuModel.EnterOnQuitTerminates | src/main.rs:144-147 | Enter with "Quit" highlighted ends the loop and leaves the result as it was |
| MenuModel.EnterOnItemExecutes | src/main.rs:144-148 | Enter on a generic item shows that item's canned result and the loop goes on |
| MenuModel.IgnoredEvents | src/main.rs:135-150 | non-key events, and keys other than `q`, Down, Up and Enter, change nothing and do not end the loop |
| MenuModel.ResultIdentifiesItem | src/main.rs:86-96 | after Enter on a generic item, the result pane determines which entry was highlighted |
| MenuModel.DescriptionIdentifiesEntry | src/main.rs:98-108 | the refreshed description determines which entry is highlighted, "Quit" included |
| MenuModel.DownIndexWraps | src/main.rs:68-71 | `n` single steps down from index i, each wrapping from 5 to 0, land on (i + n) mod 6 |
| MenuModel.UpIndexWraps | src/main.rs:73-80 | `n` single steps up from index i, each wrapping from 0 to 5, land on (i - n) mod 6 |
| MenuModel.RunDownsIndex | src/main.rs:138-140 | pressing Down `n` times moves the index by `n` wrapping steps down (so to (i + n) mod 6, by `DownIndexWraps`), keeps the result, shows the highlighted entry's description, and does not end the loop |
| MenuModel.RunUpsIndex | src/main.rs:141-143 | pressing Up `n` times moves the index by `n` wrapping steps up (so to (i - n) mod 6, by `UpIndexWraps`), keeps the result, shows the highlighted entry's description, and does not end the loop |
| MenuModel.RunAppend | src/main.rs:131-154 | running two event lists in a row is running the first, then the second only if the loop has not ended |
| MenuModel.InitDisplayed | src/main.rs:52-65 | the new application satisfies the display invariant |
| MenuModel.StepDisplayed | src/main.rs:135-151 | every loop step keeps the display invariant: the description matches the highlight unless nothing has been highlighted yet, and the result is empty or a generic item's canned result |
| MenuModel.RunDisplayed | src/main.rs:131-154 | any run of the loop keeps the display invariant |
| MenuModel.FallbacksNeverShown | src/main.rs:86-108 | from the start, no events make the panes show "Unknown Item", "Unknown selection" or the quitting message |
| MenuModel.UpFromStartWraps | src/main.rs:73-80 | Up at the start highlights "Quit" and shows its description |
| MenuModel.AfterDowns | src/main.rs:68-71 | five Downs from the start highlight "Quit", whatever events follow |
| MenuModel.MenuWalkthrough | src/main.rs:131-154 | Down five times, Up, Enter, `q` ends the loop with "Item 5" highlighted, its description shown and its canned result shown; the event after `q` is never read |
| MenuApp.App.constructor | src/main.rs:52-65 | the new object is in the initial state: six labels, index 0, both texts empty |
| MenuApp.App.SelectedItem | src/main.rs:82-84 | returns the highlighted label, which is one of the menu's, so neither table falls back |
| MenuApp.App.UpdateSelectedText | src/main.rs:98-108 | sets the description to that of the highlighted label, never "Unknown selection"; nothing else changes |
| MenuApp.App.Next | src/main.rs:68-71 | the object moves as `NextState`: the index wraps forward, the description is refreshed, entries and result stay |
| MenuApp.App.Previous | src/main.rs:73-80 | the object moves as `PreviousState`: the index wraps backward, the description is refreshed, entries and result stay |
| MenuApp.App.ExecuteSelectedItem | src/main.rs:86-96 | the object moves as `ExecuteState`: the result is the table's text for the highlighted label, and nothing else changes |
| MenuApp.App.Step | src/main.rs:135-151 | one loop iteration changes the object as `StepState` does; it reports the end exactly on `q`, or on Enter with "Quit" highlighted, and changes nothing then |
| MenuApp.RunApp | src/main.rs:131-154 | the loop over the given events ends in the state `RunEvents` computes and reports whether it ended; it keeps the display invariant |

## Left out

- Terminal setup and teardown are not modelled: raw mode, the alternate screen, mouse capture and cursor restore (src/main.rs:17-35). They are effects on the operating system's terminal.
- Error printing and the exit status in `main` are not modelled (src/main.rs:37-41). They are output only.
- Drawing a frame on each iteration (`terminal.draw`) and the rendering function `ui` are not modelled (src/main.rs:133, 156-247). Layout and widgets belong to the `tui` library, which is not part of this model.
- The blocking read of the next event (src/main.rs:135) is replaced by a list of events given in advance.
- RunApp: the source loop waits forever for input. When the given events run out before one ends the loop, the model returns and reports that the loop has not ended.
- A read error, which ends the source loop with an error, is not modelled.
- Every key code except `Char`, Down, Up and Enter is one `OtherKey` constructor, since the loop treats them all alike. Key modifiers and key-release events are not modelled.
- The model's strings are sequences of characters, where the source uses `&str` slices. Lifetimes and borrowing are not modelled.
- The five canned results and descriptions are one text with the label spliced in (`CannedResult`, `CannedDescription`). They equal the source's literals character for character.
