# ck-multiselect-grid in Dafny

A verified model of `CkMultiselectGrid`, the `<ck-multiselect-grid>`
form-associated custom element. The element reads two JSON attributes:

- `availableitems`: the options offered;
- `selecteditems`: the values chosen initially.

It renders one checkbox per option and keeps a live selection. It publishes
that selection to the enclosing form and follows the form's reset, disabled
and state-restore callbacks.

The model is split into five files:

- `text.dfy`
  - **Wrappers:** the `Option` type.
  - **Json:** the JSON values the element meets. `JSON.parse` is given as a finite map from accepted texts to values; every other text is a syntax error.
  - **Text:** ECMAScript `trim`, lower-casing and the `\s+ -> -` collapse that make up `slugify`, plus decimal rendering of the `option-<n>` and `-<n>` suffixes.
- `options.dfy`
  - **Options:** option normalisation.
    - `asNonEmptyString`, `createOptionId` and `normalizeOption`, with its `value -> label -> name` priority.
    - The two attribute readers `getAvailableOptions` and `getSelectedValues`, over `parseAttributeArray`.
- `reconcile.dfy`
  - **Reconcile:** the render pass of `renderMultiselectOptions`.
    - `buildSelectedOnlyOptions` synthesises an option for every selected value that no available option carries.
    - `resolveOptionId` makes the ids unique with `-1`, `-2`, … suffixes.
    - The checked flags come from the declared selection.
- `selection.dfy`
  - **Selection:** the live-selection updates of the change handler. A check appends a value if it is absent; an uncheck filters it out.
- `grid.dfy`
  - **Grid:** the element itself, as a class whose fields are the ones the source mutates:
    - the attributes and the connection flags;
    - the reset baseline and the live selection;
    - the disabled flag;
    - the rendered checkbox cache;
    - the published form value.
  - Every lifecycle callback, form callback and the `value` setter is a method with a frame. Its postcondition states the whole new state.

## Model

All source cells refer to `src/components/ck-multiselect-grid/ck-multiselect-grid.ts`.

| member | source | states |
|---|---|---|
| Text.Lower | src/components/ck-multiselect-grid/ck-multiselect-grid.ts:565-567 | lower-casing a character leaves no upper-case letter and keeps whether it is whitespace |
| Text.LowerAll | src/components/ck-multiselect-grid/ck-multiselect-grid.ts:565-567 | `toLowerCase` keeps the length of the text |
| Text.TrimStart | src/components/ck-multiselect-grid/ck-multiselect-grid.ts:554-558 | the result starts with non-whitespace (or is empty) and only whitespace was removed |
| Text.TrimStartIsSuffix | src/components/ck-multiselect-grid/ck-multiselect-grid.ts:554-558 | dropping leading whitespace leaves a suffix of the input |
| Text.TrimEnd | src/components/ck-multiselect-grid/ck-multiselect-grid.ts:554-558 | the result ends with non-whitespace (or is empty) and only whitespace was removed |
| Text.TrimEndIsPrefix | src/components/ck-multiselect-grid/ck-multiselect-grid.ts:554-558 | dropping trailing whitespace leaves a prefix of the input |
| Text.Trim | src/components/ck-multiselect-grid/ck-multiselect-grid.ts:554-558 | `trim` yields a trimmed text, empty exactly when the input is all whitespace |
| Text.TrimIsInfix | src/components/ck-multiselect-grid/ck-multiselect-grid.ts:554-558 | the trimmed text is a contiguous slice of the input |
| Text.TrimEndOfTrimStart | src/components/ck-multiselect-grid/ck-multiselect-grid.ts:554-558 | trimming the end after the start keeps the leading non-whitespace |
| Text.TrimTrimmed | src/components/ck-multiselect-grid/ck-multiselect-grid.ts:554-558 | `trim` is the identity on trimmed text, so trimming twice equals trimming once |
| Text.CollapseWhitespace | src/components/ck-multiselect-grid/ck-multiselect-grid.ts:565-567 | `replace(/\s+/g, '-')` leaves no whitespace and is empty exactly when its input is |
| Text.TrimStartAppend | src/components/ck-multiselect-grid/ck-multiselect-grid.ts:566 | the leading whitespace of a concatenation is that of the first part, or all of it and then the second part's |
| Text.CollapseRun | src/components/ck-multiselect-grid/ck-multiselect-grid.ts:566 | a non-empty run of whitespace becomes exactly one `-` |
| Text.CollapseAppend | src/components/ck-multiselect-grid/ck-multiselect-grid.ts:566 | where no whitespace run straddles the join, collapsing a concatenation collapses each part; with `CollapseRun` and `CollapseWithoutWhitespace` this fixes the result as one `-` per maximal run, the other characters kept in order |
| Text.CollapseKeepsNoUpperCase | src/components/ck-multiselect-grid/ck-multiselect-grid.ts:565-567 | collapsing whitespace introduces no upper-case letter |
| Text.CollapseWithoutWhitespace | src/components/ck-multiselect-grid/ck-multiselect-grid.ts:565-567 | collapsing is the identity on text without whitespace |
| Text.Slugify | src/components/ck-multiselect-grid/ck-multiselect-grid.ts:565-567 | a slug has no whitespace and is empty exactly when the source trims to nothing |
| Text.SlugifyNoUpperCase | src/components/ck-multiselect-grid/ck-multiselect-grid.ts:565-567 | a slug has no upper-case letter |
| Text.NoWhitespaceIsTrimmed | src/components/ck-multiselect-grid/ck-multiselect-grid.ts:565-567 | a text without whitespace is already trimmed |
| Text.LowerAllLowered | src/components/ck-multiselect-grid/ck-multiselect-grid.ts:565-567 | lower-casing is the identity on text without upper-case letters |
| Text.SlugStepsOfSlugLike | src/components/ck-multiselect-grid/ck-multiselect-grid.ts:565-567 | each of trim, lower-case and collapse leaves a slug-like text unchanged |
| Text.SlugOfSlugLike | src/components/ck-multiselect-grid/ck-multiselect-grid.ts:565-567 | a lower-case text without whitespace is its own slug |
| Text.SlugifyIdempotent | src/components/ck-multiselect-grid/ck-multiselect-grid.ts:565-567 | slugifying a slug changes nothing |
| Text.NatToString | src/components/ck-multiselect-grid/ck-multiselect-grid.ts:562 | a number renders as a non-empty run of digits without whitespace |
| Text.ParseNatToString | src/components/ck-multiselect-grid/ck-multiselect-grid.ts:562 | reading the rendered digits back gives the number (round trip) |
| Text.NatToStringInjective | src/components/ck-multiselect-grid/ck-multiselect-grid.ts:578-583 | different numbers render differently, so different suffixes give different ids |
| Options.AsNonEmptyString | src/components/ck-multiselect-grid/ck-multiselect-grid.ts:554-558 | present exactly for a string that trims to something, and then it is the trimmed string |
| Options.PositionalId | src/components/ck-multiselect-grid/ck-multiselect-grid.ts:562 | `option-<index>` is non-empty and has no whitespace |
| Options.NoWhitespaceAfterPrefix | src/components/ck-multiselect-grid/ck-multiselect-grid.ts:562 | `option-` followed by whitespace-free text has no whitespace |
| Options.CreateOptionId | src/components/ck-multiselect-grid/ck-multiselect-grid.ts:560-563 | an id is non-empty and whitespace-free; it is the slug when the source trims to something, and `option-<index>` when it trims to nothing |
| Options.NormalizeOption | src/components/ck-multiselect-grid/ck-multiselect-grid.ts:517-552 | every option produced is well formed: label, name and value non-empty and trimmed, id non-empty without whitespace |
| Options.NormalizeString | src/components/ck-multiselect-grid/ck-multiselect-grid.ts:520-528 | a string entry is rejected exactly when it is all whitespace, else all three text fields are its trim and the id is its slug |
| Options.RecordValuePriority | src/components/ck-multiselect-grid/ck-multiselect-grid.ts:531-536 | an object's value is its usable `value`, else its usable `label`, else its usable `name`, and is absent exactly when none is usable |
| Options.NormalizeRecord | src/components/ck-multiselect-grid/ck-multiselect-grid.ts:530-547 | an object is rejected exactly when it has no value; otherwise label and name fall back to the value and the id source is `id`, then name |
| Options.NormalizeOther | src/components/ck-multiselect-grid/ck-multiselect-grid.ts:550-551 | numbers, booleans and null are rejected |
| Options.NormalizeOptionIgnoresIndex | src/components/ck-multiselect-grid/ck-multiselect-grid.ts:517-552 | the result does not depend on the index: the `option-<index>` fallback of `createOptionId` can never be reached from here |
| Options.NormalizedIdIsSlug | src/components/ck-multiselect-grid/ck-multiselect-grid.ts:542-545 | a normalised id is a fixed point of `slugify` |
| Options.UsableString | src/components/ck-multiselect-grid/ck-multiselect-grid.ts:554-558 | a non-empty trimmed string is accepted unchanged |
| Options.AsRecordFields | src/components/ck-multiselect-grid/ck-multiselect-grid.ts:530-547 | a well-formed option written as a record has every field usable and equal to the option's |
| Options.AsRecordLookups | src/components/ck-multiselect-grid/ck-multiselect-grid.ts:530-547 | looking up a key of the option's record gives that field as a JSON string |
| Options.RenormalizeRecord | src/components/ck-multiselect-grid/ck-multiselect-grid.ts:517-552 | normalising the record of a normalised option gives the same option back (idempotence) |
| Options.ParseAttributeArray | src/components/ck-multiselect-grid/ck-multiselect-grid.ts:496-509 | entries are returned only for a present, non-empty attribute that parses to an array, and then they are that array's items; otherwise none |
| Options.AvailableFrom | src/components/ck-multiselect-grid/ck-multiselect-grid.ts:482-487 | at most one option per entry, each well formed |
| Options.AvailableFromMembers | src/components/ck-multiselect-grid/ck-multiselect-grid.ts:482-487 | an option is available exactly when some entry normalises to it at its own position (membership of map then filter) |
| Options.AvailableFromSuffix | src/components/ck-multiselect-grid/ck-multiselect-grid.ts:482-487 | the options from position k are those of the suffix from k, since the index never changes a normalised option |
| Options.AvailableFromAppend | src/components/ck-multiselect-grid/ck-multiselect-grid.ts:482-487 | map then filter over entries k.. of a joined array is that of the first part followed by the second part's |
| Options.AvailableOptionsAppend | src/components/ck-multiselect-grid/ck-multiselect-grid.ts:482-487 | the options of two arrays joined end to end are the options of each, concatenated: declared order and duplicates are kept |
| Options.SelectedEntry | src/components/ck-multiselect-grid/ck-multiselect-grid.ts:489-494 | one entry yields at most one selected value, non-empty and trimmed |
| Options.SelectedValues | src/components/ck-multiselect-grid/ck-multiselect-grid.ts:489-494 | every selected value is non-empty and trimmed, and there are no more than entries |
| Options.SelectedValuesMembers | src/components/ck-multiselect-grid/ck-multiselect-grid.ts:489-494 | a text is selected exactly when it is a non-empty trimmed string some string entry trims to |
| Options.SelectedValuesAppend | src/components/ck-multiselect-grid/ck-multiselect-grid.ts:489-494 | the selected values of concatenated entries are the concatenation, so order is kept |
| Reconcile.BuildSelectedOnlyOptions | src/components/ck-multiselect-grid/ck-multiselect-grid.ts:425-454 | the loop computes the synthesis specification, and gives nothing for an empty selection |
| Reconcile.SyntheticsAt | src/components/ck-multiselect-grid/ck-multiselect-grid.ts:443-450 | the i-th synthesised option is the option of the i-th value |
| Reconcile.SyntheticsLength | src/components/ck-multiselect-grid/ck-multiselect-grid.ts:443-450 | one synthesised option per value |
| Reconcile.NormalizeSelectedValue | src/components/ck-multiselect-grid/ck-multiselect-grid.ts:443-450 | a selected value always normalises, to the option whose fields are that value and whose id is its slug |
| Reconcile.SynthesizeIsFirstOccurrences | src/components/ck-multiselect-grid/ck-multiselect-grid.ts:438-451 | the loop synthesises the first occurrences of the values no existing option carries, and its value set grows by exactly the visited values |
| Reconcile.SelectedOnlyIsFirstOccurrences | src/components/ck-multiselect-grid/ck-multiselect-grid.ts:425-454 | `buildSelectedOnlyOptions` equals the options of the first occurrences of the missing values |
| Reconcile.FirstOccurrencesFresh | src/components/ck-multiselect-grid/ck-multiselect-grid.ts:438-451 | every first occurrence is a selected value not seen before |
| Reconcile.FirstOccurrencesDistinct | src/components/ck-multiselect-grid/ck-multiselect-grid.ts:438-451 | first occurrences are pairwise different |
| Reconcile.FirstOccurrencesCover | src/components/ck-multiselect-grid/ck-multiselect-grid.ts:438-451 | every selected value was seen before or is among the first occurrences |
| Reconcile.SyntheticValues | src/components/ck-multiselect-grid/ck-multiselect-grid.ts:443-450 | the synthesised options carry exactly the given values |
| Reconcile.SynthesizedExactlyMissing | src/components/ck-multiselect-grid/ck-multiselect-grid.ts:358-368 | a value is synthesised exactly when it is selected and no available option carries it |
| Reconcile.SynthesizedDistinct | src/components/ck-multiselect-grid/ck-multiselect-grid.ts:425-454 | no two synthesised options carry the same value |
| Reconcile.RenderListCoversSelected | src/components/ck-multiselect-grid/ck-multiselect-grid.ts:358-368 | every selected value is carried by some option of the render list |
| Reconcile.AppendDistinct | src/components/ck-multiselect-grid/ck-multiselect-grid.ts:366 | two value-distinct lists with disjoint values concatenate to a value-distinct list |
| Reconcile.RenderListDistinct | src/components/ck-multiselect-grid/ck-multiselect-grid.ts:358-368 | if the available options carry distinct values, so does the whole render list |
| Reconcile.SuffixedDistinct | src/components/ck-multiselect-grid/ck-multiselect-grid.ts:578-583 | different suffixes give different `<candidate>-<n>` ids |
| Reconcile.ResolveOptionId | src/components/ck-multiselect-grid/ck-multiselect-grid.ts:569-588 | the id returned is unused, is added to the used set, and is the candidate when free, else the candidate with the least free suffix |
| Reconcile.SuffixFresh | src/components/ck-multiselect-grid/ck-multiselect-grid.ts:578-580 | a suffix not yet tried gives an id outside the tried ids |
| Reconcile.SuffixSetSize | src/components/ck-multiselect-grid/ck-multiselect-grid.ts:578-580 | the ids with suffixes 1 to n-1 are n-1 different ids |
| Reconcile.SuffixesBound | src/components/ck-multiselect-grid/ck-multiselect-grid.ts:578-580 | n-1 used suffixes need n-1 used ids, so the suffix search stops |
| Reconcile.RenderControls | src/components/ck-multiselect-grid/ck-multiselect-grid.ts:368-374 | each option becomes one control, in order, with the id resolved against the ids before it and checked exactly when its value is selected; ids are pairwise distinct |
| Reconcile.RenderMultiselectOptions | src/components/ck-multiselect-grid/ck-multiselect-grid.ts:358-382 | the controls render the available options followed by the synthesised ones, with distinct ids, and each takes the given disabled flag |
| Reconcile.RenderedSelectionChecked | src/components/ck-multiselect-grid/ck-multiselect-grid.ts:358-374 | every selected value has a checked control after a render, available or not |
| Selection.Checked | src/components/ck-multiselect-grid/ck-multiselect-grid.ts:56-60 | after a check the value is present, nothing else is added, and the old selection is an untouched prefix; a value already present leaves the selection as it is |
| Selection.Unchecked | src/components/ck-multiselect-grid/ck-multiselect-grid.ts:61-64 | after an uncheck the value is absent and every other value is kept; the selection does not grow |
| Selection.UncheckedAppend | src/components/ck-multiselect-grid/ck-multiselect-grid.ts:61-64 | the filter distributes over concatenation, so order is kept |
| Selection.UncheckedAbsent | src/components/ck-multiselect-grid/ck-multiselect-grid.ts:61-64 | unchecking an absent value changes nothing |
| Selection.CheckedKeepsNoDuplicates | src/components/ck-multiselect-grid/ck-multiselect-grid.ts:56-60 | checking keeps the selection free of duplicates |
| Selection.UncheckedKeepsNoDuplicates | src/components/ck-multiselect-grid/ck-multiselect-grid.ts:61-64 | unchecking keeps the selection free of duplicates |
| Selection.UncheckUndoesCheck | src/components/ck-multiselect-grid/ck-multiselect-grid.ts:55-64 | unchecking a value just checked restores the selection |
| Selection.CheckAfterUncheck | src/components/ck-multiselect-grid/ck-multiselect-grid.ts:55-64 | unchecking then checking moves the value to the end |
| Grid.PublishedValue | src/components/ck-multiselect-grid/ck-multiselect-grid.ts:252-260 | the live selection is published exactly when the `name` attribute is non-empty |
| Grid.CkMultiselectGrid.constructor | src/components/ck-multiselect-grid/ck-multiselect-grid.ts:22-35 | a new element is unconnected, uninitialised, enabled, with empty selections, no checkboxes and no form value |
| Grid.CkMultiselectGrid.ConnectedCallback | src/components/ck-multiselect-grid/ck-multiselect-grid.ts:122-132 | baseline and live selection are the declared selected values; the checkboxes render the attributes; the form value is published; the handler listens |
| Grid.CkMultiselectGrid.DisconnectedCallback | src/components/ck-multiselect-grid/ck-multiselect-grid.ts:138-146 | the handler stops listening and the checkbox cache is emptied |
| Grid.CkMultiselectGrid.SetAttribute | src/components/ck-multiselect-grid/ck-multiselect-grid.ts:148-155 | setting an observed attribute to a new text on a connected element re-renders from the new attributes; otherwise nothing but the attribute changes |
| Grid.CkMultiselectGrid.RemoveAttribute | src/components/ck-multiselect-grid/ck-multiselect-grid.ts:148-155 | removing a present observed attribute from a connected element re-renders; otherwise nothing but the attribute changes |
| Grid.CkMultiselectGrid.RenderMultiselectOptions | src/components/ck-multiselect-grid/ck-multiselect-grid.ts:358-382 | the cache renders the attributes with distinct ids, and every checkbox follows the form's disabled flag |
| Grid.CkMultiselectGrid.RenderMultiselectOptionsAsWritten | src/components/ck-multiselect-grid/ck-multiselect-grid.ts:384-423 | the render as written: every new checkbox is enabled whatever the form's flag |
| Grid.CkMultiselectGrid.HandleInputChange | src/components/ck-multiselect-grid/ck-multiselect-grid.ts:40-81 | a change on a foreign target does nothing; on a cached checkbox it updates that checkbox, checks or unchecks its value in the live selection, republishes, and emits the selected or unselected event |
| Grid.CkMultiselectGrid.SetValue | src/components/ck-multiselect-grid/ck-multiselect-grid.ts:187-191 | the `value` getter then returns the new values; they are published and every checkbox is resynced |
| Grid.CkMultiselectGrid.FormResetCallback | src/components/ck-multiselect-grid/ck-multiselect-grid.ts:204-208 | the live selection returns to the unchanged baseline, is published, and the checkboxes follow |
| Grid.CkMultiselectGrid.FormDisabledCallback | src/components/ck-multiselect-grid/ck-multiselect-grid.ts:211-214 | the flag is stored and every checkbox takes it; nothing else changes |
| Grid.CkMultiselectGrid.FormStateRestoreCallback | src/components/ck-multiselect-grid/ck-multiselect-grid.ts:217-230 | a non-empty state parsing to an array becomes the live selection, published and synced; any other state changes nothing |
| Grid.CkMultiselectGrid.SyncCheckboxesToCurrentValues | src/components/ck-multiselect-grid/ck-multiselect-grid.ts:232-243 | each checkbox is checked exactly when its value is in the live selection; nothing else changes |
| Grid.CkMultiselectGrid.SyncDisabledState | src/components/ck-multiselect-grid/ck-multiselect-grid.ts:245-250 | each checkbox takes the disabled flag; nothing else changes |
| Grid.CkMultiselectGrid.UpdateFormValue | src/components/ck-multiselect-grid/ck-multiselect-grid.ts:252-260 | the form value becomes the published value of the live selection |
| Grid.RerenderForgetsLiveCheck | src/components/ck-multiselect-grid/ck-multiselect-grid.ts:148-155 | with `availableitems` = `["a"]` and no `selecteditems`, after a user check of "a" a re-render leaves its checkbox unchecked while the live (and published) selection still holds "a" |
| Grid.AsWrittenRenderIgnoresDisabled | src/components/ck-multiselect-grid/ck-multiselect-grid.ts:384-423 | a render of `["a"]` as written has an enabled checkbox, which breaks the disabled invariant when the form is disabled |
| Grid.CorrectedRenderFollowsDisabled | src/components/ck-multiselect-grid/ck-multiselect-grid.ts:358-382 | with the flag passed to the render, every control has the form's disabled flag |

`Valid()` is the class invariant:

- rendered ids are pairwise distinct;
- every checkbox's disabled flag equals the form's flag;
- the baseline holds only non-empty trimmed values;
- an uninitialised element has no checkboxes.

The constructor and `ConnectedCallback` establish it, and every other
callback, the `value` setter and the change handler preserve it. The second
clause holds because the element's renders use the corrected render of the
finding below. The source's element breaks it: a render while the form is
disabled leaves the new checkboxes enabled.

## Left out

- The DOM: the shadow root, the stylesheet, the container, fieldset, title and description nodes, the `checked` attribute mirror, and the `data-selected`/`is-selected` markers (`syncCheckboxCheckedAttribute`, `updateOptionSelectionState`, `setOptionSelectionState`). A checkbox is a `Control` value holding its option, its checked flag and its disabled flag.
- The title, description, `fieldset-id` and `fieldset-class` getters and `applyFieldsetMetadata`. They only set text and attributes of nodes. Their attributes are still observed and still trigger a re-render.
- `JSON.parse` is modelled as a finite map from accepted texts to values, with every other text a syntax error. `JSON.stringify` is not modelled: the form value holds the selection it would serialise.
- JSON numbers are modelled as integers. Nothing in the element inspects them.
- Lower-casing covers ASCII letters only. Other letters are kept unchanged by the model.
- The `console.warn` on a syntax error is not modelled: it is output only.
- `ElementInternals` is modelled as the `formValue` field. `form` and `formAssociatedCallback` are left out: one only reads the internals and the other does nothing.
- Event dispatch: `HandleInputChange` returns the event it would dispatch (name, option, checked flag) instead of dispatching it. Bubbling and composition are not modelled.
- The event target: `HandleInputChange` takes an index into the checkbox cache and the new checked flag. An index outside the cache stands for a target that is not one of the element's checkboxes (the early returns of lines 41-49).
- The two `WeakMap`s are left out. A control carries its option directly.
- The `usedIds` set of a render is threaded through `ResolveOptionId` as a value instead of being mutated.
- Attribute names are modelled in lower case. HTML's `getAttribute` matches names without regard to case, so `availableItems` reads the `availableitems` attribute.
- ConnectedCallback: the model sets the flags, the selections and the form value before rendering, while the source renders between them. Rendering reads only the attributes and the disabled flag, so the final state is the same.
- ConnectedCallback: `ensureInitialized` is folded into the `initialized` flag and the guard `if (!this.multiselectGroup)` is modelled by it. The group exists exactly when the element is initialised.
- The rendered checked flags come from the `selecteditems` attribute, not from the live selection, exactly as the source does. So the model does not promise that the checked controls match the live selection after a re-render: `Grid.RerenderForgetsLiveCheck` shows a user check lost by the next render while the value stays selected and published.
- Changing the `name` attribute re-renders but does not republish the form value, as in the source.

- ConnectedCallback: renders through the corrected `RenderMultiselectOptions`, which gives every new checkbox the form's disabled flag. The source's render (line 127, through `buildOptionNode`) leaves them enabled when the form is disabled, so this method's disabled flags are those of the intended element, not the element as written.
- SetAttribute: re-renders through the corrected render, as ConnectedCallback does. As written (line 152), the new checkboxes are enabled even while the form is disabled.
- RemoveAttribute: re-renders through the corrected render, as ConnectedCallback does. As written (line 152), the new checkboxes are enabled even while the form is disabled.

## Findings

| source | as written | input that shows it | evidently intended | confidence | as-written member | corrected member |
|---|---|---|---|---|---|---|
| src/components/ck-multiselect-grid/ck-multiselect-grid.ts:384-423 | `buildOptionNode` never sets `checkbox.disabled`, so a render (connect or attribute change) while the form is disabled creates enabled checkboxes, and only a later `formDisabledCallback` disables them | `availableitems` = `["a"]`, form disabled (`formDisabledCallback(true)`), then an attribute change on the connected element | new checkboxes take the form's disabled flag, as `syncDisabledState` gives existing ones | not executed | Grid.CkMultiselectGrid.RenderMultiselectOptionsAsWritten, Grid.AsWrittenRenderIgnoresDisabled | Grid.CkMultiselectGrid.RenderMultiselectOptions, Grid.CorrectedRenderFollowsDisabled |
