/** The view state of ui/main.ts: the twelve-quarter window, the dense rows
    the chart stacks, the playback timer and the handlers that change the
    stored preferences. */
module ViewState {
  import opened Text
  import opened Optional
  import opened Collections
  import opened QuarterData
  import opened Preferences

  /** WINDOW: the number of quarters shown at once. */
  const Window: nat := 12

  // ---------------------------------------------------------------------
  // The window

  /** The largest slider value for n quarters. */
  function MaxStart(n: nat): (m: nat)
    ensures m <= n && n <= m + Window
    ensures m > 0 ==> m + Window == n
  {
    if n > Window then n - Window else 0
  }

  /** The first shown index: the slider value clamped to [0, maxStart]. */
  function WindowStart(n: nat, v: int): nat {
    if v < 0 then 0 else if v > MaxStart(n) then MaxStart(n) else v
  }

  /** One past the last shown index. */
  function WindowEnd(n: nat, start: nat): nat {
    if start + Window < n then start + Window else n
  }

  /** The quarters the window shows for slider value v. */
  function WindowQuarters(quarters: seq<string>, v: int): (w: seq<string>)
    ensures |w| == (if |quarters| < Window then |quarters| else Window)
    ensures forall x :: x in w ==> x in quarters
  {
    var start := WindowStart(|quarters|, v);
    quarters[start..WindowEnd(|quarters|, start)]
  }

  /** Every window lies inside the data, shows min(n, 12) quarters without
      padding, the last one ends with the last quarter, and each slider
      value from 0 to maxStart starts at its own index. */
  lemma WindowProps(quarters: seq<string>, v: int)
    ensures var n := |quarters|;
      var start := WindowStart(n, v);
      var end := WindowEnd(n, start);
      && start <= MaxStart(n) && start <= end <= n
      && end - start == (if n < Window then n else Window)
      && |WindowQuarters(quarters, v)| == end - start
      && (forall i :: 0 <= i < end - start ==> WindowQuarters(quarters, v)[i] == quarters[start + i])
      && (v >= MaxStart(n) ==> end == n)
      && (0 <= v <= MaxStart(n) ==> start == v)
  {
  }

  /** The row windowSeries builds for one series entry: its quarter and a
      value for every shown category, 0 where the entry has none. */
  datatype WindowRow = WindowRow(quarter: string, values: map<string, real>)

  function RowOf(e: Entry, categories: seq<string>): (r: WindowRow)
    ensures r.quarter == e.quarter && r.values.Keys == Elems(categories)
    ensures forall k :: k in categories ==> r.values[k] == Get(e.values, k)
  {
    WindowRow(e.quarter, map k | k in Elems(categories) :: Get(e.values, k))
  }

  /** The series entries whose quarter is one of the shown quarters, in series order. */
  function ShownEntries(series: seq<Entry>, shown: seq<string>): (r: seq<Entry>)
    ensures |r| <= |series|
  {
    if series == [] then []
    else
      var rest := ShownEntries(series[1..], shown);
      if series[0].quarter in shown then [series[0]] + rest else rest
  }

  /** An entry is kept exactly when it is in the series and its quarter is shown. */
  lemma {:induction false} ShownEntriesMembership(series: seq<Entry>, shown: seq<string>)
    ensures forall e :: e in ShownEntries(series, shown) <==> e in series && e.quarter in shown
  {
    if series != [] {
      ShownEntriesMembership(series[1..], shown);
      assert forall e :: e in series <==> e == series[0] || e in series[1..];
    }
  }

  /** The filter works entry by entry: the shown entries of a concatenation
      are those of its parts, in series order. */
  lemma {:induction false} ShownEntriesAppend(a: seq<Entry>, b: seq<Entry>, shown: seq<string>)
    ensures ShownEntries(a + b, shown) == ShownEntries(a, shown) + ShownEntries(b, shown)
  {
    if a == [] {
      assert a + b == b;
    } else {
      assert (a + b)[0] == a[0] && (a + b)[1..] == a[1..] + b;
      ShownEntriesAppend(a[1..], b, shown);
    }
  }

  /** A single entry is kept exactly when its quarter is shown. */
  lemma ShownEntriesOne(e: Entry, shown: seq<string>)
    ensures ShownEntries([e], shown) == (if e.quarter in shown then [e] else [])
  {
  }

  /** The rows of a run of entries, one per entry. */
  function Rows(es: seq<Entry>, categories: seq<string>): (r: seq<WindowRow>)
    ensures |r| == |es| && forall i :: 0 <= i < |es| ==> r[i] == RowOf(es[i], categories)
  {
    if es == [] then [] else [RowOf(es[0], categories)] + Rows(es[1..], categories)
  }

  /** windowSeries: the shown entries, each made dense over the categories. */
  function WindowSeries(series: seq<Entry>, shown: seq<string>, categories: seq<string>): seq<WindowRow> {
    Rows(ShownEntries(series, shown), categories)
  }

  /** When exactly the entries at indices lo..hi have a shown quarter, the
      filter keeps exactly that run. */
  lemma {:induction false} ShownEntriesRange(es: seq<Entry>, shown: seq<string>, lo: nat, hi: nat)
    requires lo <= hi <= |es|
    requires forall i :: 0 <= i < |es| ==> (es[i].quarter in shown <==> lo <= i < hi)
    ensures ShownEntries(es, shown) == es[lo..hi]
    decreases |es|
  {
    if es != [] {
      var tail := es[1..];
      var lo', hi' := if lo > 0 then lo - 1 else 0, if hi > 0 then hi - 1 else 0;
      forall i | 0 <= i < |tail|
        ensures tail[i].quarter in shown <==> lo' <= i < hi'
      {
        assert tail[i] == es[i + 1];
      }
      ShownEntriesRange(tail, shown, lo', hi');
      if lo > 0 {
        assert tail[lo'..hi'] == es[lo..hi];
      } else if hi > 0 {
        assert es[lo..hi] == [es[0]] + tail[lo'..hi'];
      }
    }
  }

  /** Without repeats, a quarter is in the slice start..end exactly when its
      index is. */
  lemma WindowMembership(quarters: seq<string>, start: nat, end: nat)
    requires NoDuplicates(quarters) && start <= end <= |quarters|
    ensures forall i :: 0 <= i < |quarters| ==> (quarters[i] in quarters[start..end] <==> start <= i < end)
  {
    forall i | 0 <= i < |quarters|
      ensures quarters[i] in quarters[start..end] <==> start <= i < end
    {
      if quarters[i] in quarters[start..end] {
        var j :| 0 <= j < end - start && quarters[start..end][j] == quarters[i];
        assert quarters[start + j] == quarters[i];
      }
      if start <= i < end {
        assert quarters[start..end][i - start] == quarters[i];
      }
    }
  }

  /** On a dense result without repeated quarters, windowSeries is the rows
      of the shown run of the series: one per shown quarter, in window
      order, each holding every category (RowOf). */
  lemma WindowSeriesOfDense(data: ToolResult, v: int, categories: seq<string>)
    requires Dense(data) && NoDuplicates(data.quarters)
    ensures var n := |data.quarters|;
      var start := WindowStart(n, v);
      var end := WindowEnd(n, start);
      var rows := WindowSeries(data.series, WindowQuarters(data.quarters, v), categories);
      && rows == Rows(data.series[start..end], categories)
      && |rows| == |WindowQuarters(data.quarters, v)|
      && forall i :: 0 <= i < |rows| ==> rows[i].quarter == data.quarters[start + i]
  {
    var n := |data.quarters|;
    var start := WindowStart(n, v);
    var end := WindowEnd(n, start);
    var shown := WindowQuarters(data.quarters, v);
    assert shown == data.quarters[start..end];
    ShownRun(data.series, data.quarters, start, end);
    var run := data.series[start..end];
    forall i | 0 <= i < |run|
      ensures run[i].quarter == data.quarters[start + i]
    {
      assert run[i] == data.series[start + i];
    }
  }

  /** Entries labelled by distinct quarters: filtering by a run of the
      quarters keeps the matching run of entries. */
  lemma ShownRun(es: seq<Entry>, quarters: seq<string>, start: nat, end: nat)
    requires |es| == |quarters| && forall i :: 0 <= i < |es| ==> es[i].quarter == quarters[i]
    requires NoDuplicates(quarters) && start <= end <= |quarters|
    ensures ShownEntries(es, quarters[start..end]) == es[start..end]
  {
    WindowMembership(quarters, start, end);
    ShownEntriesRange(es, quarters[start..end], start, end);
  }

  // ---------------------------------------------------------------------
  // Playback

  /** updatePlayLabel. */
  function PlayLabel(data: Option<ToolResult>, slider: int): string {
    if data.Some? && slider >= MaxStart(|data.value.quarters|) then "Replay" else "Play"
  }

  lemma PlayLabelIff(data: Option<ToolResult>, slider: int)
    ensures PlayLabel(data, slider) == "Replay" <==> data.Some? && slider >= MaxStart(|data.value.quarters|)
    ensures PlayLabel(data, slider) == "Play" <==> !(data.Some? && slider >= MaxStart(|data.value.quarters|))
  {
  }

  /** The slider value and whether the interval timer is set. */
  datatype Playback = Playback(slider: int, playing: bool)

  /** startPlaying once data is loaded: rewind when at the end, then play. */
  function StartOf(v: int, n: nat): Playback {
    Playback(if v >= MaxStart(n) then 0 else v, true)
  }

  /** One interval tick with n quarters. */
  function TickOf(p: Playback, n: nat): (r: Playback)
    ensures r.slider <= MaxStart(n) && (r.playing <==> r.slider < MaxStart(n))
    ensures p.slider < MaxStart(n) ==> r.slider == p.slider + 1
    ensures p.slider >= MaxStart(n) ==> r.slider == MaxStart(n)
  {
    var next := if p.slider + 1 < MaxStart(n) then p.slider + 1 else MaxStart(n);
    Playback(next, next < MaxStart(n))
  }

  /** k timer firings; a stopped timer does not fire. */
  function Run(p: Playback, n: nat, k: nat): Playback
    decreases k
  {
    if k == 0 || !p.playing then p else Run(TickOf(p, n), n, k - 1)
  }

  /** Playing from v, each tick advances by one until maxStart. */
  lemma {:induction false} RunAdvances(v: nat, n: nat, k: nat)
    requires v < MaxStart(n) && v + k <= MaxStart(n)
    ensures Run(Playback(v, true), n, k) == Playback(v + k, v + k < MaxStart(n))
    decreases k
  {
    if k > 0 {
      if v + 1 < MaxStart(n) {
        RunAdvances(v + 1, n, k - 1);
      } else {
        assert k == 1;
      }
    }
  }

  /** A stopped timer stays stopped. */
  lemma {:induction false} RunStopped(p: Playback, n: nat, k: nat)
    requires !p.playing
    ensures Run(p, n, k) == p
  {
  }

  /** Playback never leaves [0, maxStart] when it starts inside it. */
  lemma {:induction false} RunBounded(p: Playback, n: nat, k: nat)
    requires 0 <= p.slider <= MaxStart(n)
    ensures 0 <= Run(p, n, k).slider <= MaxStart(n)
    decreases k
  {
    if k > 0 && p.playing {
      RunBounded(TickOf(p, n), n, k - 1);
    }
  }

  /** After Play, the slider reaches maxStart and the timer stops: in
      maxStart - start ticks, or one tick when there is nothing to scroll. */
  lemma PlaybackReachesEnd(v: int, n: nat)
    requires 0 <= v
    ensures var s := StartOf(v, n);
      var ticks := if MaxStart(n) - s.slider > 1 then MaxStart(n) - s.slider else 1;
      Run(s, n, ticks) == Playback(MaxStart(n), false)
  {
    var s := StartOf(v, n);
    if MaxStart(n) > 0 {
      RunAdvances(s.slider, n, MaxStart(n) - s.slider);
    }
  }

  /** With 20 quarters playing from the start takes 8 ticks, 0 to 8, and the
      timer is stopped after the eighth. */
  lemma PlaybackTwentyQuarters()
    ensures MaxStart(20) == 8
    ensures Run(StartOf(0, 20), 20, 7) == Playback(7, true)
    ensures Run(StartOf(0, 20), 20, 8) == Playback(8, false)
    ensures Run(StartOf(8, 20), 20, 8) == Playback(8, false)
    ensures Run(StartOf(0, 20), 20, 20) == Playback(8, false)
  {
    RunAdvances(0, 20, 7);
    RunAdvances(0, 20, 8);
    assert Run(Playback(0, true), 20, 20) == Run(Playback(8, false), 20, 12) by {
      RunAfter(Playback(0, true), 20, 8, 12);
    }
  }

  /** Running k then j ticks is running k + j ticks. */
  lemma {:induction false} RunAfter(p: Playback, n: nat, k: nat, j: nat)
    ensures Run(p, n, k + j) == Run(Run(p, n, k), n, j)
    decreases k
  {
    if k > 0 && p.playing {
      RunAfter(TickOf(p, n), n, k - 1, j);
    } else if !p.playing {
      RunStopped(p, n, k + j);
      RunStopped(p, n, j);
    }
  }

  // ---------------------------------------------------------------------
  // The view

  /** The order the drop handler saves, or None when it returns early: no
      data, an empty or self drop, or a category not in the shown order. */
  function DropResult(data: Option<ToolResult>, saved: seq<string>, published: Option<Defaults>,
                      from: string, to: string): (r: Option<seq<string>>)
    ensures r.Some? ==> data.Some? && from != "" && from != to && from in r.value
    ensures r.Some? ==> Elems(data.value.categories) <= Elems(r.value)
  {
    if data.None? || from == "" || from == to then None
    else
      var current := OrderedCategoriesOf(data.value.categories, saved, PublishedOrderOf(published));
      var i, j := IndexOf(current, from), IndexOf(current, to);
      if i < 0 || j < 0 then None
      else
        MoveProps(current, i, j);
        PermutationKeepsElems(current, Move(current, i, j));
        Some(Move(current, i, j))
  }

  /** The loaded result after a drop. Without a saved and a published order
      getOrderedCategories returns the result's own category array, so the
      two splices reorder that array in place; otherwise they reorder a
      fresh array and the result is untouched. */
  function DroppedData(data: Option<ToolResult>, saved: seq<string>, published: Option<Defaults>,
                       from: string, to: string): (d: Option<ToolResult>)
    ensures d.Some? <==> data.Some?
    ensures d.Some? ==> d.value.quarters == data.value.quarters && d.value.series == data.value.series
  {
    var r := DropResult(data, saved, published, from, to);
    if r.Some? && OrderBase(saved, PublishedOrderOf(published)) == [] then Some(data.value.(categories := r.value))
    else data
  }

  /** The text the Apply button validates: the hex field, else the picker. */
  function Candidate(hexInput: string, pickerInput: string): string {
    if Trim(hexInput) != [] then Trim(hexInput) else Trim(pickerInput)
  }

  /** What the Apply button does: nothing, reject the candidate, or store
      these overrides. */
  datatype ApplyOutcome = Ignored | Rejected | NewOverrides(overrides: map<string, string>)

  function ApplyOutcomeOf(hasData: bool, selected: Option<string>, store: Stored,
                          hexInput: string, pickerInput: string): ApplyOutcome
  {
    if !hasData || selected.None? || selected.value == "" then Ignored
    else
      var c := Candidate(hexInput, pickerInput);
      if !IsValidHexColor(c) then Rejected
      else NewOverrides(ColorOverridesOf(store)[selected.value := ToUpper(c)])
  }

  /** How an outcome of Apply changes the colour store and the status line:
      new overrides are saved, a rejected candidate is reported. */
  predicate ApplyEffect(o: ApplyOutcome, store0: Stored, status0: string, store: Stored, status: string) {
    && store == (if o.NewOverrides? then SavedColors(o.overrides) else store0)
    && status == (if o.Rejected? then "Invalid color. Use #RRGGBB." else status0)
  }

  /** The steps of the Apply handler that decide what it does. */
  method ApplyChoice(hasData: bool, selected: Option<string>, store: Stored,
                     hexInput: string, pickerInput: string) returns (o: ApplyOutcome)
    ensures o == ApplyOutcomeOf(hasData, selected, store, hexInput, pickerInput)
  {
    if !hasData || selected.None? || selected.value == "" {
      return Ignored;
    }
    var overrides := LoadColorOverrides(store);
    var candidate := Trim(hexInput);
    if candidate == [] {
      candidate := Trim(pickerInput);
    }
    if !IsValidHexColor(candidate) {
      return Rejected;
    }
    overrides := overrides[selected.value := ToUpper(candidate)];
    return NewOverrides(overrides);
  }

  /** The colour shown for a category, given the render's default colours. */
  function ColorFor(k: string, colorStore: Stored, published: Option<Defaults>, defaults: map<string, string>): string {
    EffectiveColor(k, ColorOverridesOf(colorStore), PublishedColorsOf(published), defaults)
  }

  /** The colour the legend click puts into the inputs: the current colour
      when it is #RRGGBB, else a fixed blue. */
  function PickerColor(current: string): (c: string)
    ensures IsValidHexColor(c)
    ensures IsValidHexColor(current) ==> c == current
  {
    HexColorPadded("", "2563eb", "");
    assert "" + ("#" + "2563eb") + "" == "#2563eb";
    if IsValidHexColor(current) then current else "#2563eb"
  }

  /** Loaded overrides and published colours are all valid. */
  lemma LoadedColorsValid(colorStore: Stored, published: Option<Defaults>)
    ensures forall k :: k in ColorOverridesOf(colorStore) ==> IsValidHexColor(ColorOverridesOf(colorStore)[k])
    ensures forall k :: k in PublishedColorsOf(published) ==> IsValidHexColor(PublishedColorsOf(published)[k])
  {
    if colorStore.Parsed? {
      ValidColorsAreValid(Entries(colorStore.value), false);
    }
    if published.Some? && published.value.colors.Some? {
      ValidColorsAreValid(ColorsAsJson(published.value.colors.value), false);
    }
  }

  /** The two splice calls of the drop handler perform Move. */
  lemma SpliceMoves(s: seq<string>, i: nat, j: nat)
    requires i < |s| && j < |s|
    ensures var rest := s[..i] + s[i + 1..]; rest[..j] + [s[i]] + rest[j..] == Move(s, i, j)
  {
  }

  /** The steps of the drop handler that compute the new order. */
  method DropChoice(data: Option<ToolResult>, saved: seq<string>, published: Option<Defaults>,
                    from: string, to: string) returns (r: Option<seq<string>>)
    ensures r == DropResult(data, saved, published, from, to)
  {
    if data.None? || from == "" || from == to {
      return None;
    }
    var current := GetOrderedCategories(data.value.categories, saved, PublishedOrderOf(published));
    var fromIdx := IndexOf(current, from);
    var toIdx := IndexOf(current, to);
    if fromIdx < 0 || toIdx < 0 {
      return None;
    }
    ghost var before := current;
    current := current[..fromIdx] + current[fromIdx + 1..];
    current := current[..toIdx] + [from] + current[toIdx..];
    SpliceMoves(before, fromIdx, toIdx);
    return Some(current);
  }

  /** The colour a legend click puts into the inputs is #RRGGBB and is the
      stored override of the category when it has one, else its published
      default when it has one. */
  predicate PickedFor(k: string, c: string, overrides: map<string, string>, published: map<string, string>) {
    && IsValidHexColor(c)
    && (k in overrides ==> c == overrides[k])
    && (k !in overrides && k in published ==> c == published[k])
  }

  /** The steps of the legend click that compute the colour put into the
      inputs: the colour the category is drawn with, as #RRGGBB. */
  method LegendColor(k: string, categories: seq<string>, orderStore: Stored, colorStore: Stored,
                     published: Option<Defaults>, turbo: real -> string) returns (c: string)
    ensures PickedFor(k, c, ColorOverridesOf(colorStore), PublishedColorsOf(published))
  {
    var ordered := GetOrderedCategories(categories, CategoryOrderOf(orderStore), PublishedOrderOf(published));
    var defaults := DefaultColors(ordered, turbo);
    var pub := LoadPublishedColorDefaults(published);
    var overrides := LoadColorOverrides(colorStore);
    var current := EffectiveColor(k, overrides, pub, defaults);
    c := PickerColor(current);
    LoadedColorsValid(colorStore, published);
  }

  /** The module-level state of ui/main.ts and the DOM values it reads back. */
  class ChartView {
    /** toolData */
    var data: Option<ToolResult>
    /** slider.value */
    var slider: int
    /** timer != null */
    var playing: bool
    /** playBtn.textContent */
    var playLabel: string
    /** selectedCategory */
    var selected: Option<string>
    /** The two localStorage items. */
    var colorStore: Stored
    var orderStore: Stored
    /** publishedDefaults */
    var published: Option<Defaults>
    /** The status line, the path field and the two colour inputs. */
    var status: string
    var excelPathInput: string
    var hexInput: string
    var pickerInput: string

    /** The slider stays within the range render gives it. */
    predicate InRange()
      reads this
    {
      data.Some? ==> 0 <= slider <= MaxStart(|data.value.quarters|)
    }

    /** A timer runs only with data; the slider stays within its range and
        short of maxStart while playing, unless there is nothing to scroll;
        the button label follows the state. */
    predicate Valid()
      reads this
    {
      && InRange()
      && (playing ==> data.Some?)
      && (playing ==> slider < MaxStart(|data.value.quarters|) || slider == 0)
      && playLabel == PlayLabel(data, slider)
    }

    /** The category order the legend and the stack use. */
    function ShownOrder(): seq<string>
      reads this
      requires data.Some?
    {
      OrderedCategoriesOf(data.value.categories, CategoryOrderOf(orderStore), PublishedOrderOf(published))
    }

    /** The page before anything is loaded. */
    constructor (colorStore0: Stored, orderStore0: Stored)
      ensures Valid()
      ensures data == None && !playing && selected == None && slider == 0
      ensures colorStore == colorStore0 && orderStore == orderStore0 && published == None
    {
      data := None;
      slider := 0;
      playing := false;
      playLabel := "Play";
      selected := None;
      colorStore := colorStore0;
      orderStore := orderStore0;
      published := None;
      status := "";
      excelPathInput := "";
      hexInput := "";
      pickerInput := "";
    }

    /** loadPublishedDefaults: a fetched and parsed JSON body is sanitized;
        a failed fetch leaves the defaults as they were. */
    method LoadPublishedDefaults(body: Option<Json>)
      requires Valid()
      modifies this
      ensures Valid()
      ensures published == (if body.Some? then Some(SanitizedDefaults(body.value)) else old(published))
      ensures data == old(data) && slider == old(slider) && playing == old(playing) && playLabel == old(playLabel)
      ensures selected == old(selected) && colorStore == old(colorStore) && orderStore == old(orderStore)
      ensures status == old(status) && excelPathInput == old(excelPathInput)
      ensures hexInput == old(hexInput) && pickerInput == old(pickerInput)
    {
      if body.Some? {
        var d := SanitizePublishedDefaults(body.value);
        published := Some(d);
      }
    }

    /** stopPlaying. */
    method StopPlaying()
      requires InRange()
      modifies this
      ensures Valid()
      ensures !playing && playLabel == PlayLabel(data, slider)
      ensures data == old(data) && slider == old(slider)
      ensures selected == old(selected) && colorStore == old(colorStore) && orderStore == old(orderStore)
      ensures published == old(published) && status == old(status) && excelPathInput == old(excelPathInput)
      ensures hexInput == old(hexInput) && pickerInput == old(pickerInput)
    {
      playing := false;
      playLabel := PlayLabel(data, slider);
    }

    /** startPlaying: nothing without data; otherwise cancel any timer,
        rewind when at the last window, and start the timer. */
    method StartPlaying()
      requires Valid()
      modifies this
      ensures Valid()
      ensures data == old(data)
      ensures old(data).None? ==> slider == old(slider) && playing == old(playing)
      ensures old(data).Some? ==> Playback(slider, playing) == StartOf(old(slider), |old(data).value.quarters|)
      ensures selected == old(selected) && colorStore == old(colorStore) && orderStore == old(orderStore)
      ensures published == old(published) && status == old(status) && excelPathInput == old(excelPathInput)
      ensures hexInput == old(hexInput) && pickerInput == old(pickerInput)
    {
      if data.None? {
        return;
      }
      StopPlaying();
      playing := true;
      var maxStart0 := MaxStart(|data.value.quarters|);
      if slider >= maxStart0 {
        slider := 0;
        playLabel := PlayLabel(data, slider);
      }
    }

    /** One firing of the 800 ms interval. */
    method Tick()
      requires Valid() && playing
      modifies this
      ensures Valid()
      ensures data == old(data)
      ensures Playback(slider, playing) == TickOf(old(Playback(slider, playing)), |old(data).value.quarters|)
      ensures selected == old(selected) && colorStore == old(colorStore) && orderStore == old(orderStore)
      ensures published == old(published) && status == old(status) && excelPathInput == old(excelPathInput)
      ensures hexInput == old(hexInput) && pickerInput == old(pickerInput)
    {
      var maxStart := MaxStart(|data.value.quarters|);
      var next := if slider + 1 < maxStart then slider + 1 else maxStart;
      slider := next;
      playLabel := PlayLabel(data, slider);
      if next >= maxStart {
        StopPlaying();
      }
    }

    /** normalizeAndRender: show a new result from its first window. A
        running timer is left as it is. */
    method Load(result: ToolResult)
      requires Valid()
      modifies this
      ensures Valid()
      ensures data == Some(result) && slider == 0 && playing == old(playing)
      ensures excelPathInput == result.excelPath
      ensures status == "Loaded " + NatToString(|result.series|) + " quarters from " + result.excelPath
      ensures selected == old(selected) && colorStore == old(colorStore) && orderStore == old(orderStore)
      ensures published == old(published) && hexInput == old(hexInput) && pickerInput == old(pickerInput)
    {
      data := Some(result);
      excelPathInput := result.excelPath;
      slider := 0;
      status := "Loaded " + NatToString(|result.series|) + " quarters from " + result.excelPath;
      playLabel := PlayLabel(data, slider);
    }

    /** The slider's input event: the range input keeps its value within
        [0, maxStart]; the timer is cancelled. */
    method SliderInput(v: int)
      requires Valid()
      modifies this
      ensures Valid()
      ensures !playing
      ensures slider == (if data.Some? then WindowStart(|data.value.quarters|, v) else v)
      ensures data == old(data)
      ensures selected == old(selected) && colorStore == old(colorStore) && orderStore == old(orderStore)
      ensures published == old(published) && status == old(status) && excelPathInput == old(excelPathInput)
      ensures hexInput == old(hexInput) && pickerInput == old(pickerInput)
    {
      slider := if data.Some? then WindowStart(|data.value.quarters|, v) else v;
      StopPlaying();
    }

    /** A click on a legend entry: select it and put its colour, or the
        fallback blue when that is not #RRGGBB, into both inputs. */
    method LegendClick(k: string, turbo: real -> string)
      requires Valid() && data.Some?
      modifies this
      ensures Valid()
      ensures selected == Some(k) && hexInput == pickerInput
      ensures PickedFor(k, hexInput, ColorOverridesOf(colorStore), PublishedColorsOf(published))
      ensures data == old(data) && slider == old(slider) && playing == old(playing)
      ensures colorStore == old(colorStore) && orderStore == old(orderStore)
      ensures published == old(published) && status == old(status) && excelPathInput == old(excelPathInput)
    {
      var store, pub := colorStore, published;
      var asHex := LegendColor(k, data.value.categories, orderStore, store, pub, turbo);
      selected := Some(k);
      pickerInput := asHex;
      hexInput := asHex;
      assert colorStore == store && published == pub && hexInput == asHex;
    }

    /** The colour picker's input event. */
    method PickerInput(v: string)
      requires Valid()
      modifies this
      ensures Valid()
      ensures pickerInput == v && hexInput == ToUpper(v)
      ensures data == old(data) && slider == old(slider) && playing == old(playing) && playLabel == old(playLabel)
      ensures selected == old(selected) && colorStore == old(colorStore) && orderStore == old(orderStore)
      ensures published == old(published) && status == old(status) && excelPathInput == old(excelPathInput)
    {
      pickerInput := v;
      hexInput := ToUpper(v);
    }

    /** The Apply button: with data and a selected category, store the
        upper-cased candidate as its override, or report an invalid one. */
    method ApplyColor()
      requires Valid()
      modifies this
      ensures Valid()
      ensures ApplyEffect(ApplyOutcomeOf(old(data).Some?, old(selected), old(colorStore), old(hexInput), old(pickerInput)),
                          old(colorStore), old(status), colorStore, status)
      ensures data == old(data) && slider == old(slider) && playing == old(playing)
      ensures selected == old(selected) && orderStore == old(orderStore) && published == old(published)
      ensures excelPathInput == old(excelPathInput) && hexInput == old(hexInput) && pickerInput == old(pickerInput)
    {
      var o := ApplyChoice(data.Some?, selected, colorStore, hexInput, pickerInput);
      match o {
        case Ignored =>
        case Rejected =>
          status := "Invalid color. Use #RRGGBB.";
        case NewOverrides(overrides) =>
          colorStore := SavedColors(overrides);
      }
    }

    /** The Reset colours button. */
    method ResetColors()
      requires Valid()
      modifies this
      ensures Valid()
      ensures selected == None && colorStore == SavedColors(map[])
      ensures data == old(data) && slider == old(slider) && playing == old(playing)
      ensures orderStore == old(orderStore) && published == old(published) && status == old(status)
      ensures excelPathInput == old(excelPathInput) && hexInput == old(hexInput) && pickerInput == old(pickerInput)
    {
      selected := None;
      colorStore := SavedColors(map[]);
      playLabel := PlayLabel(data, slider);
    }

    /** The Reset order button. */
    method ResetOrder()
      requires Valid()
      modifies this
      ensures Valid()
      ensures orderStore == SavedOrder([])
      ensures data == old(data) && slider == old(slider) && playing == old(playing)
      ensures selected == old(selected) && colorStore == old(colorStore) && published == old(published)
      ensures status == old(status) && excelPathInput == old(excelPathInput)
      ensures hexInput == old(hexInput) && pickerInput == old(pickerInput)
    {
      orderStore := SavedOrder([]);
      playLabel := PlayLabel(data, slider);
    }

    /** A legend entry dropped on the entry `to`: move `from` to the index
        `to` had in the shown order and save that as the user order. With
        no saved and no published order the moved array is the loaded
        result's own category list, which the move reorders as well. */
    method Drop(from: string, to: string)
      requires Valid()
      modifies this
      ensures Valid()
      ensures var r := DropResult(old(data), old(CategoryOrderOf(orderStore)), published, from, to);
        orderStore == (if r.Some? then SavedOrder(r.value) else old(orderStore))
      ensures data == DroppedData(old(data), old(CategoryOrderOf(orderStore)), published, from, to)
      ensures slider == old(slider) && playing == old(playing)
      ensures selected == old(selected) && colorStore == old(colorStore) && published == old(published)
      ensures status == old(status) && excelPathInput == old(excelPathInput)
      ensures hexInput == old(hexInput) && pickerInput == old(pickerInput)
    {
      var saved := CategoryOrderOf(orderStore);
      var r := DropChoice(data, saved, published, from, to);
      if r.Some? {
        if OrderBase(saved, PublishedOrderOf(published)) == [] {
          data := Some(data.value.(categories := r.value));
        }
        orderStore := SavedOrder(r.value);
      }
    }

    /** The drop as evidently intended: the same saved order, but the moved
        array is a copy, so the loaded result keeps the dataset's order. */
    method DropKeepingData(from: string, to: string)
      requires Valid()
      modifies this
      ensures Valid()
      ensures var r := DropResult(old(data), old(CategoryOrderOf(orderStore)), published, from, to);
        orderStore == (if r.Some? then SavedOrder(r.value) else old(orderStore))
      ensures data == old(data) && slider == old(slider) && playing == old(playing)
      ensures selected == old(selected) && colorStore == old(colorStore) && published == old(published)
      ensures status == old(status) && excelPathInput == old(excelPathInput)
      ensures hexInput == old(hexInput) && pickerInput == old(pickerInput)
    {
      var r := DropChoice(data, CategoryOrderOf(orderStore), published, from, to);
      if r.Some? {
        orderStore := SavedOrder(r.value);
      }
    }
  }

  // ---------------------------------------------------------------------
  // Effects of the handlers on what is shown

  /** Apply is ignored without data or a selected category, rejects a
      candidate that is not #RRGGBB, and otherwise stores it, upper-cased,
      for the selected category only: that category then shows it, every
      other category keeps its colour, and every stored colour is valid. */
  lemma ApplyOutcomeMeaning(hasData: bool, selected: Option<string>, store: Stored,
                            hexInput: string, pickerInput: string,
                            published: Option<Defaults>, defaults: map<string, string>, k: string)
    ensures var o := ApplyOutcomeOf(hasData, selected, store, hexInput, pickerInput);
      var c := Candidate(hexInput, pickerInput);
      && (o.Ignored? <==> !hasData || selected.None? || selected.value == "")
      && (o.Rejected? <==> !o.Ignored? && !IsValidHexColor(c))
      && (o.NewOverrides? ==>
            && ColorOverridesOf(SavedColors(o.overrides)) == o.overrides
            && (forall x :: x in o.overrides ==> IsValidHexColor(o.overrides[x]))
            && ColorFor(selected.value, SavedColors(o.overrides), published, defaults) == ToUpper(c)
            && (k != selected.value ==>
                  ColorFor(k, SavedColors(o.overrides), published, defaults) == ColorFor(k, store, published, defaults)))
  {
    var o := ApplyOutcomeOf(hasData, selected, store, hexInput, pickerInput);
    if o.NewOverrides? {
      var c := Candidate(hexInput, pickerInput);
      UpperKeepsValid(c);
      SaveOneColor(store, selected.value, ToUpper(c), published, defaults, k);
    }
  }

  /** Storing one valid colour over the loaded overrides. */
  lemma SaveOneColor(store: Stored, sel: string, v: string,
                     published: Option<Defaults>, defaults: map<string, string>, k: string)
    requires IsValidHexColor(v)
    ensures var m := ColorOverridesOf(store)[sel := v];
      && ColorOverridesOf(SavedColors(m)) == m
      && (forall x :: x in m ==> IsValidHexColor(m[x]))
      && ColorFor(sel, SavedColors(m), published, defaults) == v
      && (k != sel ==> ColorFor(k, SavedColors(m), published, defaults) == ColorFor(k, store, published, defaults))
  {
    var m0 := ColorOverridesOf(store);
    var m := m0[sel := v];
    UpdatedOverridesValid(store, sel, v);
    ColorOverridesRoundTrip(m);
    var pub := PublishedColorsOf(published);
    assert ColorFor(sel, SavedColors(m), published, defaults) == EffectiveColor(sel, m, pub, defaults);
    assert ColorFor(k, SavedColors(m), published, defaults) == EffectiveColor(k, m, pub, defaults);
    EffectiveColorUpdate(k, sel, v, m0, pub, defaults);
  }

  lemma UpdatedOverridesValid(store: Stored, sel: string, v: string)
    requires IsValidHexColor(v)
    ensures var m := ColorOverridesOf(store)[sel := v]; forall x :: x in m ==> IsValidHexColor(m[x])
  {
    if store.Parsed? {
      ValidColorsAreValid(Entries(store.value), false);
    }
  }

  /** After Reset colours every category shows its published or default
      colour. */
  lemma ResetColorsShown(published: Option<Defaults>, defaults: map<string, string>, k: string)
    ensures ColorFor(k, SavedColors(map[]), published, defaults)
         == EffectiveColor(k, map[], PublishedColorsOf(published), defaults)
  {
    ColorOverridesRoundTrip(map[]);
  }

  /** After Reset order the published order, if any, takes effect again. */
  lemma ResetOrderShown(categories: seq<string>, published: seq<string>)
    ensures CategoryOrderOf(SavedOrder([])) == []
    ensures OrderedCategoriesOf(categories, CategoryOrderOf(SavedOrder([])), published)
         == (if published == [] then categories
             else AppendMissing(KnownInOrder(published, categories), categories))
  {
    CategoryOrderRoundTrip([]);
  }

  /** The drop handler saves an order exactly when there is data, `from` is
      non-empty and differs from `to`, and both are in the shown order. */
  lemma DropResultIff(data: Option<ToolResult>, saved: seq<string>, published: Option<Defaults>,
                      from: string, to: string)
    ensures DropResult(data, saved, published, from, to).Some? <==>
      && data.Some? && from != "" && from != to
      && from in OrderedCategoriesOf(data.value.categories, saved, PublishedOrderOf(published))
      && to in OrderedCategoriesOf(data.value.categories, saved, PublishedOrderOf(published))
  {
  }

  /** After a drop the legend shows the saved order: the dragged category at
      the index the target had, the others in their previous relative order. */
  lemma DropShown(data: Option<ToolResult>, saved: seq<string>, published: Option<Defaults>,
                  from: string, to: string)
    requires data.Some? ==> NoDuplicates(data.value.categories)
    requires NoDuplicates(OrderBase(saved, PublishedOrderOf(published)))
    ensures var r := DropResult(data, saved, published, from, to);
      r.Some? ==>
        var pub := PublishedOrderOf(published);
        var current := OrderedCategoriesOf(data.value.categories, saved, pub);
        var i, j := IndexOf(current, from), IndexOf(current, to);
        && 0 <= i && 0 <= j
        && OrderedCategoriesOf(data.value.categories, CategoryOrderOf(SavedOrder(r.value)), pub) == r.value
        && r.value[j] == from
        && RemoveAt(r.value, j) == RemoveAt(current, i)
  {
    var r := DropResult(data, saved, published, from, to);
    if r.Some? {
      var categories := data.value.categories;
      var pub := PublishedOrderOf(published);
      var current := OrderedCategoriesOf(categories, saved, pub);
      var i, j := IndexOf(current, from), IndexOf(current, to);
      MoveProps(current, i, j);
      CategoryOrderRoundTrip(r.value);
      OrderedCategoriesPermutation(categories, saved, pub);
      PermutationKeepsElems(r.value, categories);
      ShowsCompleteOrder(categories, r.value, pub);
    }
  }

  /** As written: with neither a saved nor a published order, dropping the
      last of three categories on the first reorders the loaded result, so
      Reset order afterwards still shows the dropped order instead of the
      dataset's. */
  lemma DropThenResetKeepsMove(t: ToolResult, a: string, b: string, c: string)
    requires t.categories == [a, b, c] && a != b && b != c && a != c && c != ""
    ensures var d := DroppedData(Some(t), [], None, c, a);
      && d.value.categories == [c, a, b]
      && OrderedCategoriesOf(d.value.categories, CategoryOrderOf(SavedOrder([])), PublishedOrderOf(None)) == [c, a, b]
      && [c, a, b] != t.categories
  {
    var current := OrderedCategoriesOf(t.categories, [], []);
    assert current == [a, b, c];
    assert IndexOf(current, c) == 2 && IndexOf(current, a) == 0;
    assert Move(current, 2, 0) == [c, a, b] by {
      assert RemoveAt(current, 2) == [a, b];
    }
    CategoryOrderRoundTrip([]);
  }

  /** As intended: after a drop that keeps the loaded result, Reset order
      without a published order shows the dataset's categories again. */
  lemma ResetRestoresDatasetOrder(t: ToolResult, published: Option<Defaults>)
    requires PublishedOrderOf(published) == []
    ensures OrderedCategoriesOf(t.categories, CategoryOrderOf(SavedOrder([])), PublishedOrderOf(published)) == t.categories
  {
    CategoryOrderRoundTrip([]);
  }
}
