/** The quarter aggregation engine of src/quarter-data.ts: rows of a
    spreadsheet become a dense, sorted quarter x category time series. */
module QuarterData {
  import opened Text
  import opened Sorting
  import opened Optional
  import opened Collections

  // ---------------------------------------------------------------------
  // Cells and rows

  /** A JavaScript number: a finite value, or NaN / +Infinity / -Infinity. */
  datatype JsNumber = Finite(value: real) | NonFinite

  /** One cell as the spreadsheet reader returns it with raw values and
      `defval: null`. A numeric cell carries its JavaScript String() text. */
  datatype Cell = Empty | Bool(b: bool) | Num(n: JsNumber, text: string) | Str(s: string)

  /** A row: column header to cell. A missing column reads as undefined. */
  type RawRow = map<string, Cell>

  const QuarterCol := "Quartal"
  const CategoryCol := "Kategorie"
  const ValueCol := "Anzahl Anschl\U{00FC}sse"

  function Field(row: RawRow, col: string): Cell {
    if col in row then row[col] else Empty
  }

  /** String(c) for a cell that is not null or undefined. */
  function CellText(c: Cell): string
    requires !c.Empty?
  {
    match c
    case Bool(b) => if b then "true" else "false"
    case Num(_, t) => t
    case Str(s) => s
  }

  // ---------------------------------------------------------------------
  // parseQuarterId

  /** The sort key of a quarter: year * 4 + (quarter - 1), or +Infinity. */
  datatype QuarterKey = Key(n: int) | Infinite

  /** The comparator `parseQuarterId(a) - parseQuarterId(b) <= 0`, with the
      NaN of Infinity - Infinity read as a tie. */
  predicate KeyLeq(a: QuarterKey, b: QuarterKey) {
    b.Infinite? || (a.Key? && a.n <= b.n)
  }

  predicate IsQ(c: char) {
    c == 'Q' || c == 'q'
  }

  /** Matches the trimmed text against the quarter pattern: four digits,
      optional whitespace, an optional dash, optional whitespace, Q or q and
      one digit, then only whitespace. Reading the optional parts greedily
      finds every match of that pattern. */
  function ParseQuarterId(q: string): (k: QuarterKey)
    ensures k.Key? ==> |Trim(q)| >= 4 && AllDigits(Trim(q)[..4]) && -1 <= k.n
  {
    var t := Trim(q);
    if |t| >= 4 && AllDigits(t[..4]) then
      match QuarterDigit(t[4..])
      case Some(d) => Key(DigitsValue(t[..4]) * 4 + (d - 1))
      case None => Infinite
    else Infinite
  }

  /** The part of the pattern after the year, with Q in either case: the
      value of the quarter digit, or None when it does not match. */
  function QuarterDigit(rest: string): Option<nat> {
    var r1 := TrimStart(rest);
    DigitAfterSeparator(if r1 != [] && r1[0] == '-' then r1[1..] else r1)
  }

  /** The part after the optional dash: whitespace, Q or q, one digit, whitespace. */
  function DigitAfterSeparator(r2: string): Option<nat> {
    var r3 := TrimStart(r2);
    if |r3| >= 2 && IsQ(r3[0]) && IsDigit(r3[1]) && TrimStart(r3[2..]) == [] then
      Some(DigitValue(r3[1]))
    else None
  }

  /** The texts the quarter pattern describes, built from their parts:
      padding, four year digits, optional separator, Q or q, one digit. */
  function QuarterText(w1: string, year: string, w2: string, dash: bool, w3: string,
                       q: char, d: char, w4: string): string
  {
    w1 + year + w2 + Separator(dash) + w3 + [q, d] + w4
  }

  function Separator(dash: bool): string {
    if dash then "-" else ""
  }

  predicate QuarterParts(w1: string, year: string, w2: string, w3: string,
                         q: char, d: char, w4: string)
  {
    AllWhitespace(w1) && AllWhitespace(w2) && AllWhitespace(w3) && AllWhitespace(w4)
    && |year| == 4 && AllDigits(year) && IsQ(q) && IsDigit(d)
  }

  /** `q` is a quarter text whose key is `n`. */
  ghost predicate MatchesQuarter(q: string, n: int) {
    exists w1, year, w2, dash, w3, qc, d, w4 ::
      q == QuarterText(w1, year, w2, dash, w3, qc, d, w4)
      && QuarterParts(w1, year, w2, w3, qc, d, w4)
      && n == DigitsValue(year) * 4 + (DigitValue(d) - 1)
  }

  // ---------------------------------------------------------------------
  // normalizePath

  /** Every forward slash becomes a backslash. */
  function NormalizePath(p: string): (r: string)
    ensures |r| == |p| && '/' !in r
    ensures forall i :: 0 <= i < |p| && p[i] != '/' ==> r[i] == p[i]
    ensures forall i :: 0 <= i < |p| && p[i] == '/' ==> r[i] == '\\'
  {
    ReplaceChar(p, '/', '\\')
  }

  // ---------------------------------------------------------------------
  // Row normalisation and value coercion

  /** The text of a value cell (a missing one reads as "0"), stripped of every apostrophe and space. */
  function ValueText(v: Cell): (s: string)
    ensures '\'' !in s && ' ' !in s
  {
    var raw := if v.Empty? then "0" else CellText(v);
    var a := RemoveChar(raw, '\'');
    var b := RemoveChar(a, ' ');
    assert multiset(b)['\''] == multiset(a)['\''] == 0;
    b
  }

  /** The value of a row: a numeric cell as is, anything else parsed from its
      stripped text by `parse` (JavaScript's Number); non-finite becomes 0. */
  function CoerceValue(v: Cell, parse: string -> JsNumber): (r: real)
    ensures v.Num? && v.n.Finite? ==> r == v.n.value
    ensures v.Num? && v.n.NonFinite? ==> r == 0.0
    ensures !v.Num? ==> r == (if parse(ValueText(v)).Finite? then parse(ValueText(v)).value else 0.0)
  {
    var n := if v.Num? then v.n else parse(ValueText(v));
    if n.Finite? then n.value else 0.0
  }

  /** An accepted row. */
  datatype Triple = Triple(quarter: string, category: string, value: real)

  /** The accepted (quarter, category, value) of a row, or None for a row whose
      quarter or category is null, undefined or blank. */
  function NormalizeRow(row: RawRow, parse: string -> JsNumber): (r: Option<Triple>)
    ensures r.Some? <==>
      (&& !Field(row, QuarterCol).Empty? && !Field(row, CategoryCol).Empty?
       && Trim(CellText(Field(row, QuarterCol))) != []
       && Trim(CellText(Field(row, CategoryCol))) != [])
    ensures r.Some? ==>
      && r.value.quarter == Trim(CellText(Field(row, QuarterCol)))
      && r.value.category == Trim(CellText(Field(row, CategoryCol)))
      && r.value.value == CoerceValue(Field(row, ValueCol), parse)
  {
    var q := Field(row, QuarterCol);
    var k := Field(row, CategoryCol);
    if q.Empty? || k.Empty? then None
    else
      var quarter := Trim(CellText(q));
      var category := Trim(CellText(k));
      if quarter == [] || category == [] then None
      else Some(Triple(quarter, category, CoerceValue(Field(row, ValueCol), parse)))
  }

  // ---------------------------------------------------------------------
  // The row loop, as a fold

  /** quarterSet, categorySet (insertion-ordered) and byQuarter. */
  datatype Agg = Agg(quarters: seq<string>, categories: seq<string>,
                     sums: map<string, map<string, real>>)

  /** Set.prototype.add on an insertion-ordered set. */
  function AddUnique(s: seq<string>, x: string): (r: seq<string>)
    ensures x in r && |r| <= |s| + 1
    ensures NoDuplicates(s) ==> NoDuplicates(r)
  {
    if x in s then s else s + [x]
  }

  function Get(m: map<string, real>, k: string): real {
    if k in m then m[k] else 0.0
  }

  function Inner(sums: map<string, map<string, real>>, q: string): map<string, real> {
    if q in sums then sums[q] else map[]
  }

  function Lookup(sums: map<string, map<string, real>>, q: string, k: string): real {
    Get(Inner(sums, q), k)
  }

  /** Lines 61-66: record the quarter and category, add to the running sum. */
  function AddTriple(a: Agg, t: Triple): Agg {
    var m := Inner(a.sums, t.quarter);
    Agg(AddUnique(a.quarters, t.quarter), AddUnique(a.categories, t.category),
        a.sums[t.quarter := m[t.category := Get(m, t.category) + t.value]])
  }

  /** One iteration of the row loop. */
  function Step(a: Agg, row: RawRow, parse: string -> JsNumber): Agg {
    match NormalizeRow(row, parse)
    case None => a
    case Some(t) => AddTriple(a, t)
  }

  /** The state after the row loop has run over `rows`. */
  function Accumulate(rows: seq<RawRow>, parse: string -> JsNumber): (a: Agg)
    ensures NoDuplicates(a.quarters) && NoDuplicates(a.categories)
    ensures |a.quarters| <= |rows| && |a.categories| <= |rows|
  {
    if rows == [] then Agg([], [], map[])
    else Step(Accumulate(rows[..|rows| - 1], parse), rows[|rows| - 1], parse)
  }

  /** AddTriple over a sequence of accepted rows, in order. */
  function AddAll(a: Agg, ts: seq<Triple>): Agg {
    if ts == [] then a else AddTriple(AddAll(a, ts[..|ts| - 1]), ts[|ts| - 1])
  }

  // ---------------------------------------------------------------------
  // Reference definitions of what the row loop collects

  /** The values `f` gives for the elements it accepts, in order. */
  function FilterMap<A, B>(s: seq<A>, f: A -> Option<B>): (r: seq<B>)
    ensures |r| <= |s|
  {
    if s == [] then []
    else
      var init := FilterMap(s[..|s| - 1], f);
      match f(s[|s| - 1])
      case None => init
      case Some(b) => init + [b]
  }

  /** The accepted rows, in row order. */
  function Accepted(rows: seq<RawRow>, parse: string -> JsNumber): seq<Triple> {
    FilterMap(rows, row => NormalizeRow(row, parse))
  }

  function QuarterSet(ts: seq<Triple>): set<string> {
    set t | t in ts :: t.quarter
  }

  function CategorySet(ts: seq<Triple>): set<string> {
    set t | t in ts :: t.category
  }

  /** The sum of the values of the triples with quarter q and category k. */
  function PairSum(ts: seq<Triple>, q: string, k: string): real {
    if ts == [] then 0.0
    else
      var t := ts[|ts| - 1];
      PairSum(ts[..|ts| - 1], q, k) + (if t.quarter == q && t.category == k then t.value else 0.0)
  }

  // ---------------------------------------------------------------------
  // Result

  datatype Entry = Entry(quarter: string, values: map<string, real>)

  datatype ToolResult = ToolResult(excelPath: string, quarters: seq<string>,
                                   categories: seq<string>, series: seq<Entry>)

  /** Quarter comparator: by parseQuarterId, unparsable last. */
  predicate QuarterLeq(a: string, b: string) {
    KeyLeq(ParseQuarterId(a), ParseQuarterId(b))
  }

  /** The quarters in key order: Array.prototype.sort with the
      parseQuarterId comparator, which is stable. */
  function SortQuarters(s: seq<string>): (r: seq<string>)
    ensures multiset(r) == multiset(s) && SortedBy(r, QuarterLeq)
  {
    QuarterLeqTotalPreorder();
    SortBy(s, QuarterLeq)
  }

  /** `values` for one quarter: every category, 0 where the pair never occurred. */
  function DenseOf(m: map<string, real>, categories: seq<string>): (d: map<string, real>)
    ensures d.Keys == Elems(categories)
  {
    map c | c in categories :: Get(m, c)
  }

  /** What readQuarterData returns for the rows of its workbook. */
  function QuarterDataOf(excelPathRaw: string, rows: seq<RawRow>, parse: string -> JsNumber,
                         localeLeq: (string, string) -> bool): (r: ToolResult)
    requires TotalPreorder(localeLeq)
    ensures r.excelPath == excelPathRaw
    ensures multiset(r.quarters) == multiset(Accumulate(rows, parse).quarters) && SortedBy(r.quarters, QuarterLeq)
    ensures multiset(r.categories) == multiset(Accumulate(rows, parse).categories) && SortedBy(r.categories, localeLeq)
    ensures Dense(r)
  {
    var a := Accumulate(rows, parse);
    var quarters := SortQuarters(a.quarters);
    var categories := SortBy(a.categories, localeLeq);
    ToolResult(excelPathRaw, quarters, categories, SeriesOf(quarters, categories, a.sums))
  }

  /** The series: one entry per quarter, in order, with its dense values. */
  function SeriesOf(quarters: seq<string>, categories: seq<string>,
                    sums: map<string, map<string, real>>): (r: seq<Entry>)
    ensures |r| == |quarters|
    ensures forall i :: 0 <= i < |quarters| ==> r[i] == Entry(quarters[i], DenseOf(Inner(sums, quarters[i]), categories))
  {
    seq(|quarters|, i requires 0 <= i < |quarters| =>
      Entry(quarters[i], DenseOf(Inner(sums, quarters[i]), categories)))
  }

  /** One series entry per quarter, in order, each with every category. */
  predicate Dense(r: ToolResult) {
    && |r.series| == |r.quarters|
    && forall i :: 0 <= i < |r.series| ==>
         r.series[i].quarter == r.quarters[i] && r.series[i].values.Keys == Elems(r.categories)
  }

  lemma QuarterLeqTotalPreorder()
    ensures TotalPreorder(QuarterLeq)
  {
  }

  // ---------------------------------------------------------------------
  // readQuarterData after the workbook has been read

  /** The inner loop filling `values` for one quarter. */
  method DenseValues(m: map<string, real>, categories: seq<string>) returns (values: map<string, real>)
    ensures values.Keys == Elems(categories)
    ensures forall c :: c in values ==> values[c] == Get(m, c)
  {
    values := map[];
    for j := 0 to |categories|
      invariant values.Keys == Elems(categories[..j])
      invariant forall c :: c in values ==> values[c] == Get(m, c)
    {
      assert categories[..j + 1] == categories[..j] + [categories[j]];
      values := values[categories[j] := Get(m, categories[j])];
    }
    assert categories[..|categories|] == categories;
  }

  lemma AccumulateSnoc(rows: seq<RawRow>, i: nat, parse: string -> JsNumber)
    requires i < |rows|
    ensures Accumulate(rows[..i + 1], parse) == Step(Accumulate(rows[..i], parse), rows[i], parse)
  {
    assert rows[..i + 1][..i] == rows[..i];
  }

  /** Lines 61-66 on the loop's three collections. */
  method AddRow(quarterSet: seq<string>, categorySet: seq<string>, byQuarter: map<string, map<string, real>>,
                t: Triple)
    returns (quarterSet': seq<string>, categorySet': seq<string>, byQuarter': map<string, map<string, real>>)
    ensures Agg(quarterSet', categorySet', byQuarter') == AddTriple(Agg(quarterSet, categorySet, byQuarter), t)
  {
    quarterSet', categorySet', byQuarter' := quarterSet, categorySet, byQuarter;
    if t.quarter !in quarterSet' {
      quarterSet' := quarterSet' + [t.quarter];
    }
    if t.category !in categorySet' {
      categorySet' := categorySet' + [t.category];
    }
    // the quarter's map, created empty on first sight, gains the running sum
    var m := if t.quarter in byQuarter' then byQuarter'[t.quarter] else map[];
    byQuarter' := byQuarter'[t.quarter := m[t.category := (if t.category in m then m[t.category] else 0.0) + t.value]];
  }

  /** The row loop of readQuarterData (lines 42-67): rows that NormalizeRow
      rejects are skipped, the others extend the insertion-ordered quarter
      and category sets and add their value to the running sum. */
  method AggregateRows(rows: seq<RawRow>, parse: string -> JsNumber)
    returns (quarterSet: seq<string>, categorySet: seq<string>, byQuarter: map<string, map<string, real>>)
    ensures Agg(quarterSet, categorySet, byQuarter) == Accumulate(rows, parse)
  {
    quarterSet, categorySet, byQuarter := [], [], map[];
    for i := 0 to |rows|
      invariant Agg(quarterSet, categorySet, byQuarter) == Accumulate(rows[..i], parse)
    {
      AccumulateSnoc(rows, i, parse);
      var t := NormalizeRow(rows[i], parse);
      if t.Some? {
        quarterSet, categorySet, byQuarter := AddRow(quarterSet, categorySet, byQuarter, t.value);
      }
    }
    assert rows[..|rows|] == rows;
  }

  /** One dense entry per sorted quarter, built in a loop. */
  method BuildSeries(byQuarter: map<string, map<string, real>>, quarters: seq<string>,
                     categories: seq<string>) returns (series: seq<Entry>)
    ensures |series| == |quarters|
    ensures forall j :: 0 <= j < |quarters| ==>
      series[j] == Entry(quarters[j], DenseOf(Inner(byQuarter, quarters[j]), categories))
  {
    series := [];
    for i := 0 to |quarters|
      invariant |series| == i
      invariant forall j :: 0 <= j < i ==>
        series[j] == Entry(quarters[j], DenseOf(Inner(byQuarter, quarters[j]), categories))
    {
      var m := if quarters[i] in byQuarter then byQuarter[quarters[i]] else map[];
      var values := DenseValues(m, categories);
      assert values == DenseOf(m, categories);
      series := series + [Entry(quarters[i], values)];
    }
  }

  /** readQuarterData on the rows of the first sheet of its workbook.
      `parse` is JavaScript's Number on strings, `localeLeq` is
      `a.localeCompare(b) <= 0`. */
  method ReadQuarterData(excelPathRaw: string, rows: seq<RawRow>, parse: string -> JsNumber,
                         localeLeq: (string, string) -> bool) returns (r: ToolResult)
    requires TotalPreorder(localeLeq)
    ensures r == QuarterDataOf(excelPathRaw, rows, parse, localeLeq)
  {
    var excelPath := NormalizePath(excelPathRaw);  // the path the workbook is read from
    var quarterSet, categorySet, byQuarter := AggregateRows(rows, parse);
    var quarters := SortQuarters(quarterSet);
    var categories := SortBy(categorySet, localeLeq);
    var series := BuildSeries(byQuarter, quarters, categories);
    r := ToolResult(excelPathRaw, quarters, categories, series);
  }
}
