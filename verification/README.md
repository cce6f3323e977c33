# Autocomplete input, CSV import form and login schema — a Dafny model

The front-end of a tool-management admin panel has three pieces of client-side logic:

- **`AutocompleteInput`.** A text field with a dropdown of suggestions. Each suggestion is a label paired with a value (`change`). Typing narrows the dropdown to the labels that contain the typed text, ignoring case. ArrowDown and ArrowUp move a highlight. Enter or a click picks a suggestion and reports it to the parent through `onChange(change)` and `onSelect(label)`. Escape, or a press outside the field and the dropdown, closes the dropdown. When the parent's `value` prop changes while the user is not typing, the field shows the label of the matching suggestion.
- **The CSV import form** on the tools page. It accepts a file of at most 5 MiB whose MIME type is exactly `text/csv`. Each failed check reports its own message.
- **The login schema.** The username needs at least 6 characters and the password at least 3.

Files:

- `wrappers.dfy`: `Option`, which stands for `undefined`.
- `text.dfy` (module `TextMatch`): lower-casing and substring search.
- `suggestions.dfy` (module `Suggestions`): suggestion records, the label filter, the first-match lookups (`find`) and the highlight arithmetic.
- `autocomplete_spec.dfy` (module `AutocompleteSpec`): the component as a state machine over values. A `Widget` record holds the props, the six pieces of state and the log of parent callbacks. There is one function per event. `Valid` is the invariant every reachable state keeps. The lemmas state what each event does.
- `autocomplete_input.dfy` (module `Autocomplete`): the component as a class. Its fields are updated in place by one method per handler. Each method ends by running the effects and is proved to produce exactly the state that the matching event function gives.
- `csv_import.dfy` (module `CsvImport`): the two refinements of the `csv` field, their messages, the file picker and the submission.
- `login.dfy` (module `LoginValidator`): the login schema.

How the React behaviour is modelled:

- **Effects.** After each event the two effects run to completion (`Settle`). The value-sync effect runs first. The filter effect runs only when one of its dependencies (`inputValue`, `suggestions`, `isUserTyping`) changed. The change can come from the handler or from the sync. Running the sync effect unconditionally is the same as running it on dependency change, because its guard is false whenever its dependencies are unchanged. Gating the filter effect matters: re-running it would reset the highlight and reopen a dropdown closed by Escape.
- **Parent callbacks.** A handler that calls the parent takes `parentValue`. This is the `value` prop the parent renders with, since React applies the parent's and the component's updates in one render. It takes effect only if a callback was actually made, because `onChange` and `onSelect` are optional.
- **Click outside.** The source's test also needs the dropdown's ref to be set, which happens only while the dropdown is rendered (`showSuggestions` and a non-empty list). When the dropdown is not rendered, a press outside changes nothing and leaves the highlight alone.

Behaviour the proofs bring out:

- Enter with nothing highlighted does nothing. So after typing "dr" over Drill and Hammer, Enter alone selects nothing, even though "Drill" is the only match. ArrowDown followed by Enter selects Drill (`AutocompleteSpec.DrillExample`).
- A component mounted with a `value` shows a blank field, even when a suggestion carries that value (`AutocompleteSpec.MountedValueNotShown`).
- If the parent leaves `value` undefined, the sync effect undoes a selection made with Enter at once and blanks the field (`AutocompleteSpec.UncontrolledSelectionClears`). A selection made with the mouse ends differently in the browser; see `AutocompleteSpec.SuggestionClick` under "## Left out".
- `src/app/login/validator/login.validator.ts` holds one schema, and its password minimum is 3 characters.

## Model

| member | source | states |
|---|---|---|
| TextMatch.Lower | src/components/autocomplete-input.tsx:85 | `toLowerCase` keeps the length and lower-cases every character (ASCII letters) |
| TextMatch.LowerChar | src/components/autocomplete-input.tsx:85 | an upper-case letter becomes the same letter in lower case; any other character is left as it is |
| TextMatch.LowerCharIdentifiesCases | src/components/autocomplete-input.tsx:85 | two characters lower-case alike exactly when they are equal or the two cases of one letter |
| TextMatch.LowerOfUpper | src/components/autocomplete-input.tsx:85 | lower-casing an upper-cased text gives the lower-cased text |
| TextMatch.LowerIdempotent | src/components/autocomplete-input.tsx:85 | lower-casing twice is lower-casing once, so the filter's case folding is stable |
| TextMatch.Includes | src/components/autocomplete-input.tsx:85 | `includes` holds whenever the query is a prefix, and only for a query no longer than the text |
| TextMatch.IncludesIffOccurs | src/components/autocomplete-input.tsx:85 | `includes` holds exactly when the query occurs at some position of the label |
| Suggestions.MatchesIgnoresCase | src/components/autocomplete-input.tsx:84-85 | upper- or lower-casing the label or the typed text never changes whether a label matches |
| Suggestions.Matches | src/components/autocomplete-input.tsx:84-85 | the filter's test: an empty query matches every label, and a matching query is never longer than the label |
| Suggestions.Labels | src/components/autocomplete-input.tsx:82-83 | `map((s) => s.label)`: one label per suggestion, same positions |
| Suggestions.FilterLabels | src/components/autocomplete-input.tsx:82-86 | the filtered list is no longer than the labels and every kept label matches case-insensitively |
| Suggestions.FilterLabelsCount | src/components/autocomplete-input.tsx:82-86 | a matching label is kept as many times as it occurs; a non-matching one never |
| Suggestions.FilterLabelsMembers | src/components/autocomplete-input.tsx:84-86 | a label is in the filtered list exactly when it is a suggestion's label whose lower case contains the lower-cased input |
| Suggestions.FilterLabelsInOrder | src/components/autocomplete-input.tsx:82-86 | the filtered list keeps the order of `suggestions` (it is a subsequence of the labels) |
| Suggestions.Find | src/components/autocomplete-input.tsx:74 | `find` returns the first element satisfying the test, and nothing exactly when none does |
| Suggestions.FindByLabel | src/components/autocomplete-input.tsx:109-110 | the lookup by label returns the first suggestion with that label, or nothing when no suggestion has it |
| Suggestions.FindByChange | src/components/autocomplete-input.tsx:74 | the lookup by value returns the first suggestion whose `change` equals `value`; `undefined` finds nothing |
| Suggestions.FilteredFor | src/components/autocomplete-input.tsx:80-94 | the derived list is empty unless typing a non-empty text, and always holds labels of suggestions |
| Suggestions.FilteredLabelIsFound | src/components/autocomplete-input.tsx:145-147 | a label read from the filtered list always names a suggestion, so Enter never hits the early return |
| Suggestions.MoveIndex | src/components/autocomplete-input.tsx:133-141 | ArrowDown steps one down exactly when below len-1, else stays; ArrowUp steps one up from a highlighted label above the first, else goes to -1; the index stays in [-1, len-1] |
| Suggestions.NavigateStaysInRange | src/components/autocomplete-input.tsx:133-141 | any run of arrow keys from [-1, len-1] stays in [-1, len-1] |
| Suggestions.ArrowUpWalksTheList | src/components/autocomplete-input.tsx:139-140 | n ArrowUps move the highlight n places up, stopping at -1 |
| Suggestions.ArrowKeysUndoEachOther | src/components/autocomplete-input.tsx:133-141 | ArrowUp undoes an ArrowDown that moved, and ArrowDown undoes an ArrowUp from a highlighted label |
| Suggestions.ArrowDownWalksTheList | src/components/autocomplete-input.tsx:135-137 | n ArrowDowns move the highlight n places, stopping at the last label |
| AutocompleteSpec.Valid | src/components/autocomplete-input.tsx:72-95 | the invariant between events: the list is the derived one, a shown dropdown is non-empty with its highlight in [-1, len-1], and a component not typing has `selectedValue` equal to `value` |
| AutocompleteSpec.CaptionOrBlank | src/components/autocomplete-input.tsx:74-76 | `match?.label \|\| ""`: the found suggestion's label, or blank when none is found |
| AutocompleteSpec.Rerender | src/components/autocomplete-input.tsx:50-95 | a parent render installs the new props and leaves the log and the typing flag alone |
| AutocompleteSpec.InputChange | src/components/autocomplete-input.tsx:97-106 | a keystroke leaves the typed text, typing on, no selection, and `onChange("")` logged exactly when the parent passed `onChange` |
| AutocompleteSpec.Focus | src/components/autocomplete-input.tsx:192 | focus turns typing on and keeps the text, the selection and the log |
| AutocompleteSpec.SuggestionClick | src/components/autocomplete-input.tsx:108-127 | an unknown label changes nothing; a known one stops typing, hides the dropdown, clears the highlight and logs the selection's callbacks |
| AutocompleteSpec.KeyDown | src/components/autocomplete-input.tsx:129-155 | nothing while hidden; only Enter can call the parent or stop typing; Escape hides the dropdown and clears the highlight; any other key changes nothing |
| AutocompleteSpec.MouseEnter | src/components/autocomplete-input.tsx:157-159 | hovering a rendered item highlights it and calls nobody |
| AutocompleteSpec.ClickOutside | src/components/autocomplete-input.tsx:161-179 | a press outside a rendered dropdown hides it and clears the highlight; any other press changes nothing |
| AutocompleteSpec.Mount | src/components/autocomplete-input.tsx:59-67 | the initial state is valid: no callbacks, dropdown hidden, nothing highlighted |
| AutocompleteSpec.SyncEffect | src/components/autocomplete-input.tsx:72-78 | when not typing and `value` differs from `selectedValue`, `selectedValue` becomes `value` and the field shows the first label with that value or ""; otherwise nothing changes; only those two fields ever change |
| AutocompleteSpec.FilterEffect | src/components/autocomplete-input.tsx:80-95 | the list becomes the derived one; while typing text the dropdown shows iff it is non-empty and the highlight is -1, otherwise it is hidden and the highlight kept; nothing but the list, the dropdown flag and the highlight changes |
| AutocompleteSpec.Emit | src/components/autocomplete-input.tsx:102-126 | the parent's callbacks are appended to the log in order; a parent that was called renders with its new `value`, and with no call nothing changes |
| AutocompleteSpec.Settle | src/components/autocomplete-input.tsx:72-95 | the effects never touch the log, the props or the typing flag, and leave a non-typing component synced |
| AutocompleteSpec.SettleValid | src/components/autocomplete-input.tsx:72-95 | after any handler that keeps the highlight in range, the effects leave a valid state |
| AutocompleteSpec.SettleQuiet | src/components/autocomplete-input.tsx:72-95 | in a valid state, a handler that changes no effect input triggers no effect |
| AutocompleteSpec.FilterEffectOutcome | src/components/autocomplete-input.tsx:80-95 | recomputation gives exactly the matching labels, in order, with the dropdown shown iff non-empty and index -1; empty input or not typing gives [] and hidden |
| AutocompleteSpec.StepValid | src/components/autocomplete-input.tsx:72-174 | every event keeps the component valid |
| AutocompleteSpec.RerenderValid | src/components/autocomplete-input.tsx:72-78 | a parent render keeps the component valid |
| AutocompleteSpec.InputChangeValid | src/components/autocomplete-input.tsx:97-106 | a keystroke keeps the component valid |
| AutocompleteSpec.FocusValid | src/components/autocomplete-input.tsx:192 | focus keeps the component valid |
| AutocompleteSpec.ClickValid | src/components/autocomplete-input.tsx:108-127 | a suggestion click keeps the component valid |
| AutocompleteSpec.KeyDownValid | src/components/autocomplete-input.tsx:129-155 | every key keeps the component valid |
| AutocompleteSpec.MouseEnterValid | src/components/autocomplete-input.tsx:157-159 | hovering a rendered item keeps the component valid |
| AutocompleteSpec.ClickOutsideValid | src/components/autocomplete-input.tsx:161-174 | a document press keeps the component valid |
| AutocompleteSpec.RunValid | src/components/autocomplete-input.tsx:59-174 | any run of possible events from a valid state ends valid |
| AutocompleteSpec.HighlightInRange | src/components/autocomplete-input.tsx:133-141 | after any events from mounting, the highlight is at least -1 and, while shown, at most len-1 |
| AutocompleteSpec.KeyDownHiddenIsNoop | src/components/autocomplete-input.tsx:130 | with the dropdown hidden, no key changes anything |
| AutocompleteSpec.EnterWithoutHighlightIsNoop | src/components/autocomplete-input.tsx:143-148 | Enter with the highlight at -1 changes nothing and calls nobody |
| AutocompleteSpec.ArrowOutcome | src/components/autocomplete-input.tsx:133-141 | an arrow changes only the highlight, which stays in [-1, len-1] |
| AutocompleteSpec.EscapeOutcome | src/components/autocomplete-input.tsx:150-153 | Escape hides the dropdown and sets the highlight to -1, and nothing else changes: props, text, selected value, typing, list and log stay |
| AutocompleteSpec.EnterSelectsHighlighted | src/components/autocomplete-input.tsx:143-148 | Enter on a highlighted label is the click on that label, and the label always names a suggestion |
| AutocompleteSpec.UnknownLabelIsNoop | src/components/autocomplete-input.tsx:109-110 | clicking a label no suggestion carries changes nothing |
| AutocompleteSpec.SelectionOutcome | src/components/autocomplete-input.tsx:108-127 | selection uses the first suggestion with the label, logs onChange(change) then onSelect(label) for the callbacks present, stops typing, hides the dropdown, clears the highlight; the field shows the label when the parent's value is that change, otherwise what the sync gives |
| AutocompleteSpec.ControlledSelection | src/components/autocomplete-input.tsx:108-127 | with a parent that stores onChange's value: text = label, selected = change, hidden, highlight -1, not typing, log extended by onChange then onSelect |
| AutocompleteSpec.UncontrolledSelectionClears | src/components/autocomplete-input.tsx:72-77 | with `value` left undefined, the sync undoes a selection and blanks the field |
| AutocompleteSpec.InputChangeOutcome | src/components/autocomplete-input.tsx:97-106 | a keystroke sets the text, starts typing, clears the selected value, logs exactly onChange(""), and recomputes the list for the new text |
| AutocompleteSpec.FocusOutcome | src/components/autocomplete-input.tsx:192 | focus starts typing and keeps the text, the selection and the log; while typing it changes nothing; from a non-typing state with text it reopens the list for that text |
| AutocompleteSpec.MouseEnterOutcome | src/components/autocomplete-input.tsx:157-159 | hovering an item sets the highlight to its index and nothing else |
| AutocompleteSpec.ClickOutsideOutcome | src/components/autocomplete-input.tsx:165-173 | a press outside the open dropdown hides it and sets the highlight to -1; any other press changes nothing |
| AutocompleteSpec.SyncOutcome | src/components/autocomplete-input.tsx:72-95 | after a parent render with any `value` and list: a new value while not typing becomes the selected value and the field shows the first label with it in the new list, or ""; while typing non-empty text a new list is filtered again, with the dropdown shown iff non-empty and the highlight at -1; otherwise only the props change |
| AutocompleteSpec.MountedValueNotShown | src/components/autocomplete-input.tsx:59-62 | a component mounted with a value that a suggestion carries still shows a blank field |
| AutocompleteSpec.DrillFilter | src/components/autocomplete-input.tsx:82-86 | over Drill and Hammer, "dr" keeps only "Drill" |
| AutocompleteSpec.DrillExample | src/components/autocomplete-input.tsx:97-148 | typing "dr" shows ["Drill"] unhighlighted; Enter alone is a no-op; ArrowDown then Enter logs onChange(""), onChange("drill"), onSelect("Drill") and shows "Drill" |
| Autocomplete.AutocompleteInput.constructor | src/components/autocomplete-input.tsx:59-67 | the object starts in the mounted state |
| Autocomplete.AutocompleteInput.RunEffects | src/components/autocomplete-input.tsx:72-95 | the effects update the fields exactly as `Settle` says |
| Autocomplete.AutocompleteInput.ReceiveProps | src/components/autocomplete-input.tsx:72-78 | a parent render updates the fields as `Rerender` says and keeps them valid |
| Autocomplete.AutocompleteInput.HandleInputChange | src/components/autocomplete-input.tsx:97-106 | the keystroke handler updates the fields as `InputChange` says and keeps them valid |
| Autocomplete.AutocompleteInput.HandleFocus | src/components/autocomplete-input.tsx:192 | focus updates the fields as `Focus` says and keeps them valid |
| Autocomplete.AutocompleteInput.HandleSuggestionClick | src/components/autocomplete-input.tsx:108-127 | the click handler updates the fields as `SuggestionClick` says and keeps them valid |
| Autocomplete.AutocompleteInput.SelectSuggestion | src/components/autocomplete-input.tsx:112-126 | the setters and callbacks for a found suggestion update the fields as `Select` says |
| Autocomplete.AutocompleteInput.HandleKeyDown | src/components/autocomplete-input.tsx:129-155 | the key handler updates the fields as `KeyDown` says and keeps them valid |
| Autocomplete.AutocompleteInput.HandleMouseEnterSuggestion | src/components/autocomplete-input.tsx:157-159 | hovering updates the fields as `MouseEnter` says and keeps them valid |
| Autocomplete.AutocompleteInput.HandleClickOutside | src/components/autocomplete-input.tsx:161-174 | the document listener updates the fields as `ClickOutside` says and keeps them valid |
| CsvImport.Accepts | src/app/tools/page.tsx:37-50 | the form is valid, and so reaches `onSubmit`, exactly when both the size and the type check pass |
| CsvImport.Validate | src/app/tools/page.tsx:37-50 | no issues exactly when both refinements hold; each failing refinement contributes its own message, size first |
| CsvImport.MessagesSpelledOut | src/app/tools/page.tsx:31-48 | the limit is 5242880 bytes, the size message names it as MAX_FILE_SIZE / MB_RATIO = 5 MB, the type message lists text/csv |
| CsvImport.OversizedRejected | src/app/tools/page.tsx:40-43 | a file over 5242880 bytes fails the size check and the form |
| CsvImport.SizeLimitInclusive | src/app/tools/page.tsx:41 | a file of exactly 5242880 bytes passes the size check |
| CsvImport.OnlyCsvType | src/app/tools/page.tsx:44-45 | the type check passes exactly for "text/csv" |
| CsvImport.AcceptsPicked | src/app/tools/page.tsx:31-50 | a file is accepted exactly when its size is at most 5242880 and its type is "text/csv" |
| CsvImport.MissingFileFailsBoth | src/app/tools/page.tsx:40-45 | with no file (undefined or the default "") both checks fail and both messages are reported |
| CsvImport.SizeOk | src/app/tools/page.tsx:40-42 | the size check passes exactly for a picked file of at most 5242880 bytes |
| CsvImport.TypeOk | src/app/tools/page.tsx:44-46 | the type check passes exactly for a picked file of type text/csv |
| CsvImport.PickFile | src/app/tools/page.tsx:125-130 | the first chosen file is written to the field; a null list or an empty choice leaves it unchanged |
| CsvImport.Submission | src/app/tools/page.tsx:90-93 | the form posts a file exactly when it is accepted, and the file posted is the picked one, within the limit and of type text/csv |
| CsvImport.DefaultFormPostsNothing | src/app/tools/page.tsx:83-93 | starting from the default "" and picking no file, nothing is posted |
| LoginValidator.MinLength | src/app/login/validator/login.validator.ts:4-9 | a field passes exactly when its length reaches the minimum, otherwise one issue with its message |
| LoginValidator.Validate | src/app/login/validator/login.validator.ts:3-10 | valid exactly when username length >= 6 and password length >= 3; each failure reports its fixed message |
| LoginValidator.FieldsIndependent | src/app/login/validator/login.validator.ts:3-10 | the issues about each field are exactly that field's own check |
| LoginValidator.ChangingOneFieldKeepsTheOther | src/app/login/validator/login.validator.ts:3-10 | changing one field never changes what is reported about the other |

## Left out

- TextMatch.Lower: lower-cases ASCII letters only; `toLowerCase` folds all of Unicode. The filter applies the same lowering to both the label and the input, which is what the case-insensitivity properties rely on.
- AutocompleteSpec.SuggestionClick: models a selection as if the field kept its focus, which is what happens with Enter. A mouse press on a suggestion item, which cannot take focus, moves focus off the field. The `focus()` call at line 118 then fires the field's `onFocus` (line 192) in the same batch, so `isUserTyping` ends true. The sync effect then does not run, and the filter effect can reopen the list for the selected label. The outcomes of `SelectionOutcome`, `ControlledSelection` and `UncontrolledSelectionClears` (hidden, not typing, field per the parent's value) hold for Enter only.
- Rendering: `SuggestionItem`, the markup, `placeholder` and `className` are not modelled. Nor are `preventDefault` or registering and removing the document listener. For a press on the document, the model only takes as input whether the target is outside both the field and the dropdown.
- Whether the parent passes `onChange` and `onSelect` is fixed when the component mounts. A parent that adds or drops a callback later is not modelled.
- React scheduling: each handler is one atomic update followed by the effects run to completion. The order in which React commits and re-renders is not modelled.
- Suggestions.Value: the `number` values are integers. Fractions and NaN are not modelled.
- AutocompleteSpec.Rerender: compares the `suggestions` prop by value. React compares the array by identity. So a parent that passes a new but equal array on every render re-runs the filter effect in the source, which resets the highlight and reopens a dropdown closed by Escape. Omitting the prop is worse: its default `[]` is a new array on every render, so the filter effect runs after every render, and both of its branches store a new array, which schedules another render. The component then re-renders without end from mount. The model does not re-run the filter in these cases and so does not capture that loop.
- LoginValidator.Validate: lengths count characters; JavaScript counts UTF-16 code units. Values that are not strings, which the schema would reject with a type error, are not modelled.
- The validation library's parsing machinery and the form library are not modelled. The refinements and length checks are modelled directly.
- Data fetching and feedback on the tools page are not modelled: the list query, the import mutation and its success and error handlers, cache invalidation, notifications, logging and the dialog. They are network and library calls whose code is not in this repository.
- src/components/side-bar.tsx is not part of this model. It composes a component library, and its only side effect is deleting a cookie and navigating.
- src/app/(private)/users/types/user-type.ts is not part of this model. It only declares types.
