# Quarter chart: a verified model of its data reader and chart view

The quarter chart reads an Excel sheet of connection counts. Each row has a
quarter ("Quartal"), a category ("Kategorie") and a count ("Anzahl
Anschlüsse"). The reader sums the counts per quarter and category, sorts the
quarters chronologically and the categories alphabetically, and returns a
dense table: every quarter has a value for every category. The browser view
shows a window of twelve quarters as a stacked bar chart, which a slider
moves and a Play button scrolls forward automatically. A legend lets the
user change a category's colour and drag categories into a new order. Those
preferences are kept in the browser's local storage, with optional
published defaults as a fallback.

The model has eight modules:

- `QuarterData` (`quarter_data.dfy`) models `readQuarterData`:
  - the quarter key (`ParseQuarterId`) and the path normalisation;
  - the conversion of one sheet row into an accepted (quarter, category,
    value) triple or a skipped row;
  - the row loop, as the imperative `AggregateRows` proved equal to the fold
    `Accumulate`;
  - the two sorts and the dense series.

  `ReadQuarterData` puts these steps together and is proved equal to the
  specification function `QuarterDataOf`.
- `QuarterDataProofs` (`quarter_data_proofs.dfy`) proves what the reader
  promises:
  - the quarter pattern is accepted exactly as described, with examples;
  - each accepted quarter and category is listed exactly once, and each cell
    is the sum of its rows;
  - quarters come out in key order, with ties in first-seen order;
  - skipped rows do not matter;
  - when the order of the rows matters, and when it does not.
- `Preferences` (`preferences.dfy`) models the preference logic of
  `ui/main.ts`:
  - hex-colour validation;
  - the filters that load colour overrides, the category order and the
    published defaults from storage;
  - the merge of a stored order with the dataset's categories
    (`getOrderedCategories`);
  - the drag-and-drop move, the default colour scale and the colour
    fallback chain.
- `ViewState` (`view_state.dfy`) models the rest of `ui/main.ts`:
  - the twelve-quarter window and the rows it shows;
  - playback as a pure transition system with lemmas;
  - the class `ChartView`. Its fields are the page's module-level state and
    the DOM values the handlers read back. Its methods are the handlers: Play,
    Pause, the timer tick, loading a result, the slider, the legend click,
    the colour picker, Apply, Reset colours, Reset order and the drop.
- `Text`, `Sorting`, `Collections` and `Optional` are shared helpers:
  - JavaScript's `trim` whitespace set, ASCII upper-casing, `replaceAll` for
    one character, and `String(n)`;
  - a stable insertion sort, standing in for `Array.prototype.sort`, which is
    stable;
  - sequence membership and duplicates.

External inputs become parameters:

- Parsing a text to a JavaScript number is `parse: string -> JsNumber`.
- `localeCompare` is `localeLeq`, a total preorder.
- `d3.interpolateTurbo` is `turbo: real -> string`.
- The local-storage items are `Stored` values, which are the result of
  `JSON.parse` or the missing item.
- The fetched published-defaults body is an optional `Json` value.

### Row order

One might expect the result not to depend on the order of the rows. The
code does depend on it. Two different quarter texts with the same key (for
example "2020Q1" and "2020-Q1") are tied by the quarter comparator, and the
stable sort keeps them in the order the row loop first saw them. The model
follows the code:

- `QuarterDataProofs.RowOrderMatters` exhibits two rows whose swap changes
  the quarter list.
- `QuarterDataProofs.RowOrderIrrelevantWithoutTies` proves the independence
  when no two distinct quarters share a key and no two distinct categories
  compare equal.

## Model

| member | source | states |
|---|---|---|
| QuarterDataProofs.ParseQuarterIdIff | src/quarter-data.ts:11-18 | parseQuarterId gives a key exactly for texts of the form: whitespace, four digits, whitespace, an optional dash, whitespace, Q or q, one digit, whitespace; the key is year * 4 + (digit - 1) |
| QuarterDataProofs.ParseQuarterIdAccepts | src/quarter-data.ts:13-17 | every text of the quarter pattern parses to year * 4 + (digit - 1) |
| QuarterDataProofs.ParseQuarterIdSound | src/quarter-data.ts:13-17 | every text that parses to a key is a text of the pattern with that key |
| QuarterDataProofs.QuarterDigitParts | src/quarter-data.ts:13 | whatever the pattern accepts after the year splits into whitespace, an optional dash, Q and a digit |
| QuarterDataProofs.ParseTrimmed | src/quarter-data.ts:13-17 | a text whose trimmed form is four digits and an accepted rest parses to the key of those parts |
| QuarterDataProofs.QuarterKeyDash | src/quarter-data.ts:12-17 | "2020-Q1" has key 8080 |
| QuarterDataProofs.QuarterKeyNoDash | src/quarter-data.ts:12-17 | "2020Q2" has key 8081: the dash is optional |
| QuarterDataProofs.QuarterKeyNoDashFirst | src/quarter-data.ts:12-17 | "2020Q1" has key 8080, the same as "2020-Q1" |
| QuarterDataProofs.QuarterKeySpaced | src/quarter-data.ts:13-17 | "2021 - Q1" has key 8084: whitespace is allowed around the dash |
| QuarterDataProofs.QuarterKeyDigitBeyondFour | src/quarter-data.ts:13-17 | "2020-Q7" has key 8086: the digit is not limited to 1-4 |
| QuarterDataProofs.QuarterKeyBogus | src/quarter-data.ts:14 | "bogus" gets the key +Infinity |
| QuarterDataProofs.KeyOfParts | src/quarter-data.ts:13-17 | a quarter text given by its year, separator and digit parses to year * 4 + (digit - 1) |
| QuarterData.ParseQuarterId | src/quarter-data.ts:11-18 | a text gets a key only when its trimmed form starts with four digits, and the key is at least -1 (year 0, digit 0) |
| QuarterData.NormalizePath | src/quarter-data.ts:20-23 | the result has the input's length and no forward slash; every slash becomes a backslash and every other character stays |
| Text.ReplaceChar | src/quarter-data.ts:22 | replaceAll of one character by another, position by position |
| QuarterData.NormalizeRow | src/quarter-data.ts:47-59 | a row is accepted exactly when its quarter and category cells are present and non-blank after trimming; the triple holds the trimmed texts and the coerced value |
| QuarterData.ValueText | src/quarter-data.ts:58 | the text of a non-numeric value cell contains no apostrophe and no space |
| Text.RemoveChar | src/quarter-data.ts:58 | replaceAll of one character by "" leaves no occurrence of it and keeps the count of every other character |
| Text.RemoveCharConcat | src/quarter-data.ts:58 | removing the character from a concatenation removes it from each part: the kept characters stay in their order |
| Text.RemoveCharOne | src/quarter-data.ts:58 | a single character is dropped exactly when it is the removed one, so with RemoveCharConcat the result is the input with exactly that character taken out |
| Text.RemoveCharAbsent | src/quarter-data.ts:58 | a text without the character is returned unchanged |
| QuarterDataProofs.StripSeparators | src/quarter-data.ts:58 | an apostrophe between digit runs and a trailing space are dropped from the value text |
| QuarterDataProofs.ValueWithSeparators | src/quarter-data.ts:58-59 | the value "1'234 " counts as 1234 |
| QuarterDataProofs.NonNumericValueIsZero | src/quarter-data.ts:58-59 | a value that does not parse to a finite number counts as 0 |
| QuarterDataProofs.MissingValueIsZero | src/quarter-data.ts:58-59 | a missing value reads as "0" and counts as 0 |
| QuarterData.CoerceValue | src/quarter-data.ts:58-59 | a finite number keeps its value; a non-finite number counts as 0; any other cell counts as the parse of its stripped text when that is finite, else as 0 |
| QuarterDataProofs.AddUniqueElems | src/quarter-data.ts:61-62 | adding to an insertion-ordered set adds the element once and keeps the set free of repeats |
| QuarterData.AddUnique | src/quarter-data.ts:61-62 | Set.add: the element is in the result, which grows by at most one and stays free of repeats |
| QuarterData.Accumulate | src/quarter-data.ts:42-67 | after the row loop the quarter and category lists have no repeats and at most one entry per row |
| QuarterDataProofs.QuarterDigitAccepts | src/quarter-data.ts:13 | the pattern after the year accepts whitespace, an optional dash, whitespace, Q or q, a digit and whitespace, and yields that digit |
| QuarterData.AddRow | src/quarter-data.ts:61-66 | one accepted row adds its quarter and category once each and adds its value to the running sum of its pair (AddTriple) |
| QuarterData.AggregateRows | src/quarter-data.ts:42-67 | the row loop computes the fold Accumulate over the rows |
| QuarterData.AccumulateSnoc | src/quarter-data.ts:46-67 | one more row is one more Step of the fold |
| QuarterDataProofs.AccumulateCorrect | src/quarter-data.ts:42-67 | after the loop, each accepted quarter and category is listed exactly once, and each pair's sum is the sum of its accepted rows' values |
| QuarterDataProofs.AccumulateAccepted | src/quarter-data.ts:46-56 | the loop depends on the rows only through the accepted ones |
| QuarterDataProofs.AcceptedMembers | src/quarter-data.ts:51-56 | a triple is accepted exactly when some row normalises to it |
| QuarterDataProofs.RejectedRowIgnored | src/quarter-data.ts:51-56 | inserting a row with a missing or blank quarter or category anywhere leaves the result unchanged |
| QuarterDataProofs.AccumulateTwo | src/quarter-data.ts:46-67 | two rows are two steps of the loop, in row order |
| QuarterDataProofs.AddFirstTriple | src/quarter-data.ts:61-66 | the first accepted row starts its quarter, its category and its sum |
| QuarterDataProofs.AddSamePair | src/quarter-data.ts:64-66 | a second row for the same pair adds to the existing sum |
| QuarterDataProofs.DuplicatePairsAddUp | src/quarter-data.ts:46-79 | two rows for the same quarter and category with 5 and 7 give one cell with 12 |
| Sorting.SortBy | src/quarter-data.ts:69-70 | the sort returns a permutation of its input, sorted by the comparator |
| Sorting.SortStable | src/quarter-data.ts:69-70 | the sort is stable: elements the comparator ties keep their relative order |
| Sorting.SortOrderIndependent | src/quarter-data.ts:70 | without ties, the sorted result does not depend on the input's order |
| QuarterData.SortQuarters | src/quarter-data.ts:69 | the quarters are permuted into ascending key order |
| QuarterData.QuarterLeqTotalPreorder | src/quarter-data.ts:69 | the comparator on quarter keys (with +Infinity tying +Infinity) is a total preorder |
| QuarterDataProofs.QuartersInKeyOrder | src/quarter-data.ts:69 | quarters come out in key order, every unparsable quarter after every parsable one |
| QuarterDataProofs.QuarterTiesKeepFirstSeenOrder | src/quarter-data.ts:61-69 | quarters with equal keys keep the order in which rows first showed them |
| QuarterDataProofs.SortTwoTied | src/quarter-data.ts:69 | two tied quarters stay in their order |
| QuarterDataProofs.SortFourQuarters | src/quarter-data.ts:69 | three quarters with increasing keys and an unparsable one sort into that order from any starting order |
| QuarterDataProofs.QuarterSortExample | src/quarter-data.ts:69 | "2020-Q1", "2020Q2", "2021 - Q1" and "bogus" sort into that order from any starting order |
| QuarterData.DenseValues | src/quarter-data.ts:73-75 | a quarter's values hold exactly the categories, each with its sum or 0 |
| QuarterData.DenseOf | src/quarter-data.ts:73-75 | a quarter's values have exactly the categories as keys |
| QuarterData.SeriesOf | src/quarter-data.ts:72-77 | one entry per sorted quarter, in order, with that quarter's dense values |
| QuarterData.BuildSeries | src/quarter-data.ts:72-77 | the series loop builds SeriesOf |
| QuarterData.ReadQuarterData | src/quarter-data.ts:25-79 | readQuarterData computes QuarterDataOf |
| QuarterData.QuarterDataOf | src/quarter-data.ts:25-79 | the result keeps the path as given; its quarters and categories are the collected ones rearranged into key order and localeCompare order; its series is dense |
| QuarterDataProofs.QuarterDataCorrect | src/quarter-data.ts:42-79 | the result lists each accepted quarter and category exactly once, sorted, and each cell is the sum of its rows' values, 0 if there are none |
| QuarterDataProofs.SeriesSums | src/quarter-data.ts:72-77 | sums that agree with the row sums give a dense series holding those sums |
| QuarterDataProofs.SinglePairResult | src/quarter-data.ts:69-79 | one quarter and one category give one entry with their sum |
| QuarterDataProofs.RowOrderMatters | src/quarter-data.ts:61-69 | "2020Q1" and "2020-Q1" come out in the order of their rows: swapping the rows swaps them |
| QuarterDataProofs.FirstSeenQuarters | src/quarter-data.ts:61 | two rows with different quarters list them in row order |
| QuarterDataProofs.RowOrderIrrelevantWithoutTies | src/quarter-data.ts:42-79 | rearranging the rows leaves the result unchanged when no two distinct quarters share a key and no two distinct categories compare equal |
| QuarterDataProofs.FilterMapPermutation | src/quarter-data.ts:46-56 | rearranging the rows rearranges the accepted ones |
| QuarterDataProofs.PairSumPermutation | src/quarter-data.ts:64-66 | a pair's sum does not depend on the order of the rows |
| QuarterDataProofs.SetsPermutation | src/quarter-data.ts:61-62 | the sets of quarters and categories do not depend on the order of the rows |
| QuarterDataProofs.SortedSetsAgree | src/quarter-data.ts:69-70 | two duplicate-free lists of the same strings sort to the same list when the comparator has no ties among them |
| Preferences.ValidHexColorIff | ui/main.ts:105-107 | isValidHexColor holds exactly for # and six hex digits with only whitespace around them |
| Preferences.HexColorPadded | ui/main.ts:105-107 | # and six hex digits with whitespace around them are accepted |
| Preferences.UpperKeepsValid | ui/main.ts:78 | upper-casing a valid colour keeps it valid |
| Text.ToUpper | ui/main.ts:78 | upper-casing maps each character and keeps the length |
| Text.TrimIdempotent | ui/main.ts:106 | trimming twice is trimming once |
| Text.TrimPadded | ui/main.ts:106 | trimming removes exactly the surrounding whitespace |
| Preferences.FilterColors | ui/main.ts:77-78 | the loop over the entries keeps those whose value is a valid colour string, upper-cased when asked |
| Preferences.ValidColorsAreValid | ui/main.ts:115-116 | every colour that survives the filter is a valid colour from a string entry |
| Preferences.LoadColorOverrides | ui/main.ts:109-122 | loadColorOverrides returns the valid entries of a parsed item, and {} for a missing, empty or unparsable one |
| Preferences.ColorOverridesRoundTrip | ui/main.ts:109-136 | saving overrides and loading them again keeps exactly the valid entries; valid overrides come back unchanged |
| Preferences.ColorOverridesIdempotent | ui/main.ts:109-136 | saving what was loaded and loading again gives the same overrides |
| Preferences.CategoryOrderRoundTrip | ui/main.ts:138-158 | a saved category order loads back unchanged |
| Preferences.StringItems | ui/main.ts:144 | a text is in the result exactly when the list holds it as a string item |
| Preferences.StringItemsAppend | ui/main.ts:144 | the filter of a concatenation is the concatenation of the filters: the kept items stay in order, repeats included |
| Preferences.StringItemsOne | ui/main.ts:144 | a single item is kept exactly when it is a string |
| Preferences.StringItemsOfStrings | ui/main.ts:144 | filtering a saved list of strings gives it back |
| Preferences.SanitizePublishedDefaults | ui/main.ts:71-89 | the loop computes SanitizedDefaults |
| Preferences.SanitizedColorsValid | ui/main.ts:75-81 | sanitized colours are valid and are the upper-cased input strings |
| Preferences.SanitizeNonObject | ui/main.ts:74 | a value that is not an object gives empty defaults |
| Preferences.LoadPublishedColorDefaults | ui/main.ts:124-132 | loadPublishedColorDefaults returns the valid published colours, or {} without them |
| Preferences.PublishedColorsOfSanitized | ui/main.ts:124-132 | the published-colour filter changes nothing on sanitized defaults |
| Preferences.GetOrderedCategories | ui/main.ts:160-173 | the two loops compute OrderedCategoriesOf |
| Preferences.KnownInOrder | ui/main.ts:166-168 | an entry is kept exactly when it is in the base and is a category; no more entries than the base has |
| Preferences.KnownInOrderAppend | ui/main.ts:166-168 | the first loop over a concatenated base is the concatenation of the loops: base order and repeats are kept |
| Preferences.KnownInOrderOne | ui/main.ts:166-168 | a single base entry is kept exactly when it is a category |
| Preferences.AppendMissingProps | ui/main.ts:169-171 | the second loop keeps the known prefix, adds the categories and adds no duplicate |
| Preferences.AppendMissingFilter | ui/main.ts:169-171 | without repeated categories, the missing categories follow in dataset order |
| Preferences.MissingElems | ui/main.ts:169-171 | the missing categories are exactly those not yet listed |
| Preferences.OrderedCategoriesProps | ui/main.ts:160-173 | the merged order lists exactly the categories and starts with the known entries of the saved order, else of the published order |
| Preferences.OrderedCategoriesOf | ui/main.ts:160-173 | getOrderedCategories never drops a category |
| Preferences.OrderedCategoriesPermutation | ui/main.ts:160-173 | without repeats, the merged order is a permutation of the categories |
| Preferences.ShowsCompleteOrder | ui/main.ts:160-173 | a saved order listing exactly the categories is shown as it is |
| Preferences.OrderedCategoriesIdempotent | ui/main.ts:160-173 | merging the shown order again changes nothing |
| Preferences.OrderExample | ui/main.ts:160-173 | categories A, B, C, D with saved order C, A show as C, A, B, D |
| Preferences.MissingExample | ui/main.ts:169-171 | B and D are the categories missing from C, A |
| Preferences.KnownAll | ui/main.ts:166-168 | a base made only of categories is kept whole |
| Preferences.AppendMissingNothing | ui/main.ts:169-171 | when every category is listed, nothing is appended |
| Preferences.IndexOf | ui/main.ts:297-298 | indexOf is -1 exactly when the element is absent, else its first index |
| Preferences.MoveProps | ui/main.ts:301-302 | the moved category lands at the target index; nothing is lost or added; the others keep their relative order |
| Preferences.Move | ui/main.ts:301-302 | the moved element lands at the target index and the length is kept |
| Preferences.TurboPositionRange | ui/main.ts:341-342 | each default colour position lies in [0.15, 0.85] |
| Preferences.DefaultColors | ui/main.ts:339-343 | every shown category gets turbo(0.15 + 0.7 * i / max(1, n - 1)) for its last position i |
| Preferences.EffectiveColor | ui/main.ts:346 | the colour is an override, a published colour, a default or #999 |
| Preferences.EffectiveColorPrecedence | ui/main.ts:346 | an override wins; otherwise a published colour wins over the default; only a category with none of these shows #999 |
| Preferences.EffectiveColorUpdate | ui/main.ts:346 | setting one category's override changes that category's colour and no other |
| ViewState.WindowProps | ui/main.ts:314-319 | the window lies inside the data and shows min(n, 12) quarters; a slider at or past maxStart ends at the last quarter; each slider value in [0, maxStart] starts at its own index |
| ViewState.MaxStart | ui/main.ts:314 | a window starting at maxStart reaches the last quarter, and a positive maxStart leaves exactly twelve quarters from it to the end |
| ViewState.WindowQuarters | ui/main.ts:314-319 | the window shows min(n, 12) quarters, all taken from the data |
| ViewState.RowOf | ui/main.ts:326-328 | a shown row holds its quarter and every category, with the stored value or 0 |
| ViewState.ShownEntries | ui/main.ts:325 | the filter never yields more entries than the series has |
| ViewState.ShownEntriesMembership | ui/main.ts:325 | an entry is kept exactly when it is in the series and its quarter is shown |
| ViewState.ShownEntriesAppend | ui/main.ts:325 | the filter of a concatenation is the concatenation of the filters: kept entries stay in series order |
| ViewState.ShownEntriesOne | ui/main.ts:325 | a single entry is kept exactly when its quarter is shown |
| ViewState.Rows | ui/main.ts:326-329 | one row per entry, in order |
| ViewState.ShownEntriesRange | ui/main.ts:325 | when exactly the entries lo..hi have a shown quarter, the filter returns that run |
| ViewState.WindowMembership | ui/main.ts:319-325 | without repeated quarters, a quarter is in the window exactly when its index is |
| ViewState.ShownRun | ui/main.ts:319-325 | filtering distinct quarters by a run of them keeps the matching entries |
| ViewState.WindowSeriesOfDense | ui/main.ts:314-329 | on a dense result, windowSeries is one dense row per shown quarter, in window order |
| ViewState.PlayLabelIff | ui/main.ts:206-214 | the label is "Replay" exactly when there is data and the slider is at or past maxStart, else "Play" |
| ViewState.RunAdvances | ui/main.ts:237-243 | each tick moves the slider by one until maxStart, where the timer stops |
| ViewState.RunStopped | ui/main.ts:216-223 | a stopped timer does not change the slider |
| ViewState.RunBounded | ui/main.ts:237-243 | playback never leaves [0, maxStart] |
| ViewState.RunAfter | ui/main.ts:237-243 | k ticks followed by j ticks are k + j ticks |
| ViewState.TickOf | ui/main.ts:237-243 | a tick moves the slider one step towards maxStart, never past it, and the timer keeps running exactly while the slider is below maxStart |
| ViewState.PlaybackReachesEnd | ui/main.ts:225-243 | after Play, the slider reaches maxStart and the timer stops, after maxStart - start ticks or one tick when there is nothing to scroll |
| ViewState.PlaybackTwentyQuarters | ui/main.ts:225-243 | with 20 quarters, Play runs from 0 to 8 in 8 ticks; at the end it replays from 0 |
| ViewState.ChartView.constructor | ui/main.ts:53-59 | the page starts with no data, no timer, no selection and the slider at 0 |
| ViewState.ChartView.LoadPublishedDefaults | ui/main.ts:91-103 | a fetched body is sanitized into the published defaults; a failed fetch changes nothing |
| ViewState.ChartView.StopPlaying | ui/main.ts:216-223 | the timer is cleared and the label updated; nothing else changes |
| ViewState.ChartView.StartPlaying | ui/main.ts:225-236 | without data nothing happens; otherwise the timer runs and the slider rewinds to 0 when it was at the end (StartOf) |
| ViewState.ChartView.Tick | ui/main.ts:237-243 | a tick advances the slider by one up to maxStart and stops the timer there (TickOf) |
| ViewState.ChartView.Load | ui/main.ts:539-551 | the result is shown from its first window; the path field and the status line are set |
| ViewState.ChartView.SliderInput | ui/main.ts:632-635 | moving the slider stops playback; the value is clamped to [0, maxStart] |
| ViewState.ChartView.LegendClick | ui/main.ts:266-275 | the clicked category is selected; both inputs get the same #RRGGBB colour, its override if it has one, else its published colour |
| ViewState.LegendColor | ui/main.ts:271-272 | the colour put into the inputs is valid and follows the override, then published, precedence |
| ViewState.PickerColor | ui/main.ts:272 | a valid current colour is kept; anything else becomes a valid fallback |
| ViewState.LoadedColorsValid | ui/main.ts:109-132 | every loaded override and published colour is valid |
| ViewState.ChartView.PickerInput | ui/main.ts:703-705 | the hex field becomes the upper-cased picker value |
| ViewState.ApplyChoice | ui/main.ts:657-664 | the handler's steps compute ApplyOutcomeOf |
| ViewState.ChartView.ApplyColor | ui/main.ts:656-667 | without data or a selection nothing changes; an invalid candidate only sets the status "Invalid color. Use #RRGGBB."; otherwise the upper-cased colour is stored for the selected category |
| ViewState.ApplyOutcomeMeaning | ui/main.ts:656-667 | Apply is ignored exactly without data or a selection and rejects exactly an invalid candidate; otherwise the stored overrides load back, are all valid, give the selected category the new colour and leave every other category's colour unchanged |
| ViewState.SaveOneColor | ui/main.ts:664-665 | storing one valid colour over the loaded overrides changes only that category's colour |
| ViewState.UpdatedOverridesValid | ui/main.ts:664 | the updated overrides are all valid |
| ViewState.ChartView.ResetColors | ui/main.ts:669-674 | the selection is cleared and the overrides are saved as {} |
| ViewState.ResetColorsShown | ui/main.ts:669-674 | after Reset colours, each category shows its published or default colour |
| ViewState.ChartView.ResetOrder | ui/main.ts:676-679 | the saved order becomes [] |
| ViewState.ResetOrderShown | ui/main.ts:676-679 | after Reset order, the published order, if any, takes effect |
| ViewState.SpliceMoves | ui/main.ts:301-302 | the two splice calls perform Move |
| ViewState.DropChoice | ui/main.ts:290-302 | the handler's steps compute DropResult |
| ViewState.ChartView.Drop | ui/main.ts:288-305 | a drop saves the moved order when DropResult gives one; with no saved and no published order the loaded result's categories take that order too (DroppedData); nothing else changes |
| ViewState.DroppedData | ui/main.ts:296-302 | the loaded result keeps its quarters and series through a drop |
| ViewState.DropResult | ui/main.ts:288-305 | a saved order needs data and a non-empty dragged category other than the target; it contains the dragged category and every category of the data |
| ViewState.DropThenResetKeepsMove | ui/main.ts:296-302 | with neither a saved nor a published order, dropping C on A over A, B, C leaves the result's categories as C, A, B, which Reset order then still shows |
| ViewState.ChartView.DropKeepingData | ui/main.ts:288-305 | the intended drop: the same saved order, and the loaded result unchanged |
| ViewState.ResetRestoresDatasetOrder | ui/main.ts:676-679 | with no published order, Reset order shows the result's own category order |
| ViewState.DropResultIff | ui/main.ts:290-299 | a drop saves an order exactly when there is data, the dragged category is non-empty and differs from the target, and both are shown |
| ViewState.DropShown | ui/main.ts:288-305 | after a drop the legend shows the saved order: the dragged category at the target's old index, the others in their previous relative order |
| Text.NatToStringRoundTrip | ui/main.ts:549 | the decimal text of the number of quarters reads back as that number |

## Findings

| source | as written | input that shows it | evidently intended | confidence | as-written member | corrected member |
|---|---|---|---|---|---|---|
| ui/main.ts:296-302 | with no saved and no published order, getOrderedCategories returns the result's own category array and the two splices reorder it in place | categories A, B, C, drop C on A, then Reset order: the legend still shows C, A, B | the drop changes only the saved order, so Reset order shows the dataset's order A, B, C again | not executed; follows from line 163 returning its argument | ViewState.DropThenResetKeepsMove | ViewState.ChartView.DropKeepingData |

## Left out

- Reading the workbook (`xlsx.readFile`, `sheet_to_json`): the rows are a parameter. The "Workbook has no sheets." error is not modelled.
- Parsing text to a number (`Number(...)`) is the parameter `parse`. Cells that are already numbers carry their JavaScript value and its `String` text.
- Counts are real numbers: floating-point rounding and overflow to Infinity are not modelled.
- `localeCompare` is the parameter `localeLeq`, assumed to be a total preorder. Its collation is not modelled.
- D3 rendering (scales, stack, transitions, tooltip, axis labels), `Intl` number formatting and the window label text are not modelled.
- `d3.interpolateTurbo` is the parameter `turbo`.
- `fetch`, `localStorage`, the DOM, `JSON.parse`/`JSON.stringify` text, and the ordering of `Object.entries`:
  - storage items are the parsed `Stored` values;
  - JSON objects are maps.
- Inherited prototype keys of JavaScript objects are not modelled.
- A category named "quarter" would overwrite the row's quarter field in the chart rows. `RowOf` keeps the two apart.
- `setInterval`/`clearInterval` are the `playing` field, and each firing is a call of `Tick`.
- The stop on `dragstart` and on a hidden page are calls of `StopPlaying` and are not modelled separately.
- The download-defaults handler, `loadData`, `init`, the MCP host wiring and the URL handling are not modelled. They are I/O around the modelled state.
- `ChartView.Load` does not stop a running timer, which matches `normalizeAndRender`. `loadData` stops it before loading.
- Text.ToUpper: upper-cases ASCII letters only, whereas JavaScript's `toUpperCase` maps all of Unicode. Valid colours are ASCII, so the stored colours are the same.
- The colour input element's own value sanitisation (an `<input type="color">` accepts only #rrggbb) is not modelled: the picker value is a free string.
- ViewState.ChartView.LegendClick: states the colour for a category with an override or a published colour. It does not pin down the colour of a category that has neither. That colour is the turbo default of its position, or #999, or the fallback #2563eb when that text is not a valid colour.
- ViewState.LegendColor: weaker in the same way as LegendClick.
