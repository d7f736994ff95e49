/** What readQuarterData promises, proved about the model in QuarterData. */
module QuarterDataProofs {
  import opened Text
  import opened Sorting
  import opened Optional
  import opened QuarterData
  import opened Collections

  // ---------------------------------------------------------------------
  // parseQuarterId

  lemma AllWhitespaceConcat(a: string, b: string)
    requires AllWhitespace(a) && AllWhitespace(b)
    ensures AllWhitespace(a + b)
  {
  }

  lemma Regroup(a: string, b: string, c: string, d: string, e: string)
    ensures a + (b + (c + (d + e))) == a + b + c + d + e
  {
  }

  lemma DigitAfterSeparatorAccepts(w3: string, q: char, d: char, w4: string)
    requires AllWhitespace(w3) && AllWhitespace(w4) && IsQ(q) && IsDigit(d)
    ensures DigitAfterSeparator(w3 + ([q, d] + w4)) == Some(DigitValue(d))
  {
    var tail := [q, d] + w4;
    TrimStartPadded(w3, tail);
    TrimStartPadded(w4, []);
    assert w4 + [] == w4 && tail[2..] == w4;
  }

  lemma QuarterDigitDash(w2: string, x: string)
    requires AllWhitespace(w2)
    ensures QuarterDigit(w2 + ("-" + x)) == DigitAfterSeparator(x)
  {
    TrimStartPadded(w2, "-" + x);
    assert ("-" + x)[1..] == x;
  }

  lemma QuarterDigitNoDash(w2: string, w3: string, q: char, d: char, w4: string)
    requires AllWhitespace(w2) && AllWhitespace(w3) && AllWhitespace(w4) && IsQ(q) && IsDigit(d)
    ensures QuarterDigit(w2 + (w3 + ([q, d] + w4))) == Some(DigitValue(d))
  {
    var tail := [q, d] + w4;
    assert w2 + (w3 + tail) == (w2 + w3) + tail;
    AllWhitespaceConcat(w2, w3);
    TrimStartPadded(w2 + w3, tail);
    DigitAfterSeparatorAccepts([], q, d, w4);
    assert [] + tail == tail;
  }

  /** The pattern after the year accepts its texts and yields their digit. */
  lemma QuarterDigitAccepts(w2: string, dash: bool, w3: string, q: char, d: char, w4: string)
    requires AllWhitespace(w2) && AllWhitespace(w3) && AllWhitespace(w4) && IsQ(q) && IsDigit(d)
    ensures QuarterDigit(w2 + Separator(dash) + w3 + [q, d] + w4) == Some(DigitValue(d))
  {
    Regroup(w2, Separator(dash), w3, [q, d], w4);
    if dash {
      QuarterDigitDash(w2, w3 + ([q, d] + w4));
      DigitAfterSeparatorAccepts(w3, q, d, w4);
    } else {
      assert Separator(dash) + (w3 + ([q, d] + w4)) == w3 + ([q, d] + w4);
      QuarterDigitNoDash(w2, w3, q, d, w4);
    }
  }

  /** Every text the pattern after the year accepts has its parts. */
  lemma QuarterDigitParts(rest: string) returns (w2: string, dash: bool, w3: string, q: char, d: char, w4: string)
    requires QuarterDigit(rest).Some?
    ensures AllWhitespace(w2) && AllWhitespace(w3) && AllWhitespace(w4) && IsQ(q) && IsDigit(d)
    ensures rest == w2 + Separator(dash) + w3 + [q, d] + w4
    ensures QuarterDigit(rest) == Some(DigitValue(d))
  {
    var r1 := TrimStart(rest);
    w2 := TrimStartSplit(rest);
    dash := r1 != [] && r1[0] == '-';
    var r2 := if dash then r1[1..] else r1;
    assert r1 == Separator(dash) + r2 by {
      if dash {
        assert r1 == [r1[0]] + r1[1..];
      } else {
        assert Separator(dash) + r2 == r2;
      }
    }
    var r3 := TrimStart(r2);
    w3 := TrimStartSplit(r2);
    q, d := r3[0], r3[1];
    var tail := r3[2..];
    w4 := TrimStartSplit(tail);
    assert tail == w4 by {
      assert tail == w4 + TrimStart(tail) && TrimStart(tail) == [];
      assert w4 + [] == w4;
    }
    assert r3 == [q, d] + w4 by {
      HeadTwo(r3);
    }
    calc {
      rest;
      w2 + r1;
      w2 + (Separator(dash) + r2);
      w2 + (Separator(dash) + (w3 + r3));
      w2 + (Separator(dash) + (w3 + ([q, d] + w4)));
      { Regroup(w2, Separator(dash), w3, [q, d], w4); }
      w2 + Separator(dash) + w3 + [q, d] + w4;
    }
  }

  lemma HeadTwo<T>(s: seq<T>)
    requires |s| >= 2
    ensures s == [s[0], s[1]] + s[2..]
  {
  }

  /** Every text of the quarter pattern parses to year * 4 + (digit - 1). */
  lemma ParseQuarterIdAccepts(w1: string, year: string, w2: string, dash: bool, w3: string,
                              q: char, d: char, w4: string)
    requires QuarterParts(w1, year, w2, w3, q, d, w4)
    ensures ParseQuarterId(QuarterText(w1, year, w2, dash, w3, q, d, w4))
         == Key(DigitsValue(year) * 4 + (DigitValue(d) - 1))
  {
    var mid := w2 + Separator(dash) + w3 + [q, d];
    var core := year + mid;
    assert QuarterText(w1, year, w2, dash, w3, q, d, w4) == w1 + core + w4;
    assert core[0] == year[0] && core[|core| - 1] == d;
    TrimPadded(w1, core, w4);
    QuarterDigitAccepts(w2, dash, w3, q, d, []);
    assert mid + [] == mid;
    ParseTrimmed(QuarterText(w1, year, w2, dash, w3, q, d, w4), year, mid);
  }

  /** A text whose trimmed form is four digits and an accepted rest parses
      to the key of those parts. */
  lemma ParseTrimmed(s: string, year: string, mid: string)
    requires Trim(s) == year + mid && |year| == 4 && AllDigits(year) && QuarterDigit(mid).Some?
    ensures ParseQuarterId(s) == Key(DigitsValue(year) * 4 + (QuarterDigit(mid).value - 1))
  {
    assert (year + mid)[..4] == year && (year + mid)[4..] == mid;
  }

  /** Every text that parses to a key is a text of the quarter pattern, with
      that key. */
  lemma QuarterTextSplit(w1: string, year: string, w2: string, dash: bool, w3: string,
                         q: char, d: char, w4: string, wEnd: string)
    ensures w1 + ((year + (w2 + Separator(dash) + w3 + [q, d] + w4)) + wEnd)
         == QuarterText(w1, year, w2, dash, w3, q, d, w4 + wEnd)
  {
  }

  lemma ParseQuarterIdSound(s: string)
    requires ParseQuarterId(s).Key?
    ensures MatchesQuarter(s, ParseQuarterId(s).n)
  {
    var ts := TrimStart(s);
    var t := Trim(s);
    var w1 := TrimStartSplit(s);
    var wEnd := TrimEndSplit(ts);
    var year := t[..4];
    var w2, dash, w3, q, d, w4 := QuarterDigitParts(t[4..]);
    assert t == year + t[4..];
    AllWhitespaceConcat(w4, wEnd);
    assert s == w1 + ((year + t[4..]) + wEnd);
    QuarterTextSplit(w1, year, w2, dash, w3, q, d, w4, wEnd);
    assert QuarterParts(w1, year, w2, w3, q, d, w4 + wEnd);
  }

  /** parseQuarterId(s) is a key exactly for the texts of the pattern, and
      +Infinity for everything else. */
  lemma ParseQuarterIdIff(s: string, n: int)
    ensures ParseQuarterId(s) == Key(n) <==> MatchesQuarter(s, n)
  {
    if ParseQuarterId(s) == Key(n) {
      ParseQuarterIdSound(s);
    }
    if MatchesQuarter(s, n) {
      var w1, year, w2, dash, w3, qc, d, w4 :|
        s == QuarterText(w1, year, w2, dash, w3, qc, d, w4)
        && QuarterParts(w1, year, w2, w3, qc, d, w4)
        && n == DigitsValue(year) * 4 + (DigitValue(d) - 1);
      ParseQuarterIdAccepts(w1, year, w2, dash, w3, qc, d, w4);
    }
  }

  lemma YearValue(y: string, n: nat)
    requires |y| == 4 && AllDigits(y)
    requires n == DigitValue(y[0]) * 1000 + DigitValue(y[1]) * 100 + DigitValue(y[2]) * 10 + DigitValue(y[3])
    ensures DigitsValue(y) == n
  {
    assert y[..3][..2] == y[..2] && y[..2][..1] == y[..1] && y[..1][..0] == [];
    assert DigitsValue(y[..1]) == DigitValue(y[0]);
    assert DigitsValue(y[..2]) == DigitValue(y[0]) * 10 + DigitValue(y[1]);
    assert DigitsValue(y[..3]) == DigitValue(y[0]) * 100 + DigitValue(y[1]) * 10 + DigitValue(y[2]);
  }

  /** "2020-Q1", the first quarter of the worked example. */
  lemma QuarterKeyDash()
    ensures ParseQuarterId("2020-Q1") == Key(8080)
  {
    YearValue("2020", 2020);
    KeyOfParts("2020-Q1", "2020", 2020, "", true, "", '1', 8080);
  }

  /** "2020Q2": the separator is optional. */
  lemma QuarterKeyNoDash()
    ensures ParseQuarterId("2020Q2") == Key(8081)
  {
    YearValue("2020", 2020);
    KeyOfParts("2020Q2", "2020", 2020, "", false, "", '2', 8081);
  }

  /** "2021 - Q1": whitespace around the separator. */
  lemma QuarterKeySpaced()
    ensures ParseQuarterId("2021 - Q1") == Key(8084)
  {
    YearValue("2021", 2021);
    KeyOfParts("2021 - Q1", "2021", 2021, " ", true, " ", '1', 8084);
  }

  /** A quarter text without outer whitespace, given by its parts. */
  lemma KeyOfParts(s: string, year: string, y: int, w2: string, dash: bool, w3: string, d: char, n: int)
    requires |year| == 4 && AllDigits(year) && DigitsValue(year) == y
    requires AllWhitespace(w2) && AllWhitespace(w3) && IsDigit(d)
    requires s == year + w2 + Separator(dash) + w3 + ['Q', d]
    requires n == y * 4 + (DigitValue(d) - 1)
    ensures ParseQuarterId(s) == Key(n)
  {
    assert s == QuarterText("", year, w2, dash, w3, 'Q', d, "") by {
      assert "" + year == year;
      assert s + "" == s;
    }
    ParseQuarterIdAccepts("", year, w2, dash, w3, 'Q', d, "");
  }

  /** "2020-Q7": the digit is not limited to 1-4, so Q7 lands on a later
      year's key. */
  lemma QuarterKeyDigitBeyondFour()
    ensures ParseQuarterId("2020-Q7") == Key(8086)
  {
    YearValue("2020", 2020);
    KeyOfParts("2020-Q7", "2020", 2020, "", true, "", '7', 8086);
  }

  /** "bogus" does not start with four digits: +Infinity. */
  lemma QuarterKeyBogus()
    ensures ParseQuarterId("bogus") == Infinite
  {
    TrimPadded("", "bogus", "");
    assert "" + "bogus" + "" == "bogus";
    assert !IsDigit("bogus"[0]);
  }

  /** Quarters with increasing keys, and an unparsable one, sort into that
      order whatever order they were first seen in. */
  lemma SortFourQuarters(seen: seq<string>, a: string, b: string, c: string, d: string)
    requires ParseQuarterId(a).Key? && ParseQuarterId(b).Key? && ParseQuarterId(c).Key?
    requires ParseQuarterId(a).n < ParseQuarterId(b).n < ParseQuarterId(c).n
    requires ParseQuarterId(d).Infinite?
    requires multiset(seen) == multiset([a, b, c, d])
    ensures SortQuarters(seen) == [a, b, c, d]
  {
    QuarterLeqTotalPreorder();
    var want := [a, b, c, d];
    FourQuartersSorted(a, b, c, d);
    SortedUnique(want, SortQuarters(seen), QuarterLeq);
  }

  lemma FourQuartersSorted(a: string, b: string, c: string, d: string)
    requires ParseQuarterId(a).Key? && ParseQuarterId(b).Key? && ParseQuarterId(c).Key?
    requires ParseQuarterId(a).n < ParseQuarterId(b).n < ParseQuarterId(c).n
    requires ParseQuarterId(d).Infinite?
    ensures SortedBy([a, b, c, d], QuarterLeq) && NoTies([a, b, c, d], QuarterLeq)
  {
    QuarterLeqTotalPreorder();
    FourInOrder(a, b, c, d, QuarterLeq);
  }

  /** Four elements each strictly before the next are sorted and tie-free. */
  lemma FourInOrder<T>(a: T, b: T, c: T, d: T, leq: (T, T) -> bool)
    requires leq(a, b) && leq(b, c) && leq(c, d) && leq(a, c) && leq(a, d) && leq(b, d)
    requires !leq(b, a) && !leq(c, b) && !leq(d, c) && !leq(c, a) && !leq(d, a) && !leq(d, b)
    ensures SortedBy([a, b, c, d], leq) && NoTies([a, b, c, d], leq)
  {
    var s := [a, b, c, d];
    forall i, j | 0 <= i < 4 && 0 <= j < 4 && leq(s[i], s[j]) && leq(s[j], s[i])
      ensures s[i] == s[j]
    {
      assert i == j;
    }
  }

  /** The worked example: whatever the order they are first seen in, these
      four quarters sort with the unparsable one last. */
  lemma QuarterSortExample(seen: seq<string>)
    requires multiset(seen) == multiset(["2020-Q1", "2020Q2", "2021 - Q1", "bogus"])
    ensures SortQuarters(seen) == ["2020-Q1", "2020Q2", "2021 - Q1", "bogus"]
  {
    QuarterKeyDash();
    QuarterKeyNoDash();
    QuarterKeySpaced();
    QuarterKeyBogus();
    SortFourQuarters(seen, "2020-Q1", "2020Q2", "2021 - Q1", "bogus");
  }

  // ---------------------------------------------------------------------
  // The row loop

  lemma {:induction false} FilterMapMembers<A, B>(s: seq<A>, f: A -> Option<B>, b: B)
    ensures b in FilterMap(s, f) <==> exists i :: 0 <= i < |s| && f(s[i]) == Some(b)
  {
    if s != [] {
      var init := s[..|s| - 1];
      FilterMapMembers(init, f, b);
      if exists i :: 0 <= i < |s| && f(s[i]) == Some(b) {
        var i :| 0 <= i < |s| && f(s[i]) == Some(b);
        if i < |init| {
          assert init[i] == s[i];
        }
      }
      if exists i :: 0 <= i < |init| && f(init[i]) == Some(b) {
        var i :| 0 <= i < |init| && f(init[i]) == Some(b);
        assert s[i] == init[i];
      }
    }
  }

  /** A row is accepted exactly when NormalizeRow gives it a triple. */
  lemma AcceptedMembers(rows: seq<RawRow>, parse: string -> JsNumber, t: Triple)
    ensures t in Accepted(rows, parse) <==> exists i :: 0 <= i < |rows| && NormalizeRow(rows[i], parse) == Some(t)
  {
    FilterMapMembers(rows, row => NormalizeRow(row, parse), t);
  }

  lemma QuarterSetSnoc(ts: seq<Triple>, t: Triple)
    ensures QuarterSet(ts + [t]) == QuarterSet(ts) + {t.quarter}
    ensures CategorySet(ts + [t]) == CategorySet(ts) + {t.category}
  {
    assert forall u :: u in ts + [t] <==> u in ts || u == t;
  }

  lemma PairSumSnoc(ts: seq<Triple>, t: Triple, q: string, k: string)
    ensures PairSum(ts + [t], q, k)
         == PairSum(ts, q, k) + (if t.quarter == q && t.category == k then t.value else 0.0)
  {
    assert (ts + [t])[..|ts|] == ts;
  }

  lemma AddUniqueElems(s: seq<string>, x: string)
    requires NoDuplicates(s)
    ensures NoDuplicates(AddUnique(s, x)) && Elems(AddUnique(s, x)) == Elems(s) + {x}
  {
  }

  /** The row loop collects each accepted quarter and category exactly once
      and sums the values of each (quarter, category) pair. */
  lemma {:induction false} AccumulateCorrect(rows: seq<RawRow>, parse: string -> JsNumber)
    ensures var a := Accumulate(rows, parse);
      var ts := Accepted(rows, parse);
      && NoDuplicates(a.quarters) && Elems(a.quarters) == QuarterSet(ts)
      && NoDuplicates(a.categories) && Elems(a.categories) == CategorySet(ts)
      && forall q, k :: Lookup(a.sums, q, k) == PairSum(ts, q, k)
  {
    if rows != [] {
      var init := rows[..|rows| - 1];
      AccumulateCorrect(init, parse);
      var a0 := Accumulate(init, parse);
      var ts0 := Accepted(init, parse);
      match NormalizeRow(rows[|rows| - 1], parse)
      case None =>
      case Some(t) =>
        QuarterSetSnoc(ts0, t);
        AddUniqueElems(a0.quarters, t.quarter);
        AddUniqueElems(a0.categories, t.category);
        forall q, k ensures Lookup(AddTriple(a0, t).sums, q, k) == PairSum(ts0 + [t], q, k) {
          PairSumSnoc(ts0, t, q, k);
        }
    }
  }

  // ---------------------------------------------------------------------
  // Rejected rows

  lemma {:induction false} FilterMapAppend<A, B>(s: seq<A>, t: seq<A>, f: A -> Option<B>)
    ensures FilterMap(s + t, f) == FilterMap(s, f) + FilterMap(t, f)
    decreases |t|
  {
    if t == [] {
      assert s + t == s;
    } else {
      var t0 := t[..|t| - 1];
      FilterMapAppend(s, t0, f);
      assert (s + t)[..|s + t| - 1] == s + t0;
      assert (s + t)[|s + t| - 1] == t[|t| - 1];
    }
  }

  /** The row loop depends on the rows only through the accepted ones. */
  lemma {:induction false} AccumulateAccepted(rows: seq<RawRow>, parse: string -> JsNumber)
    ensures Accumulate(rows, parse) == AddAll(Agg([], [], map[]), Accepted(rows, parse))
  {
    if rows != [] {
      var init := rows[..|rows| - 1];
      AccumulateAccepted(init, parse);
      var ts0 := Accepted(init, parse);
      match NormalizeRow(rows[|rows| - 1], parse)
      case None =>
      case Some(t) =>
        assert (ts0 + [t])[..|ts0|] == ts0;
    }
  }

  /** A row with a blank or missing quarter or category is skipped: removing
      it changes nothing in the result. */
  lemma RejectedRowIgnored(excelPathRaw: string, before: seq<RawRow>, row: RawRow, after: seq<RawRow>,
                           parse: string -> JsNumber, localeLeq: (string, string) -> bool)
    requires TotalPreorder(localeLeq)
    requires NormalizeRow(row, parse).None?
    ensures QuarterDataOf(excelPathRaw, before + [row] + after, parse, localeLeq)
         == QuarterDataOf(excelPathRaw, before + after, parse, localeLeq)
  {
    var f := r => NormalizeRow(r, parse);
    FilterMapAppend(before + [row], after, f);
    FilterMapAppend(before, [row], f);
    FilterMapAppend(before, after, f);
    assert FilterMap([row], f) == [] by {
      assert [row][..0] == [];
    }
    assert FilterMap(before, f) + [] == FilterMap(before, f);
    AccumulateAccepted(before + [row] + after, parse);
    AccumulateAccepted(before + after, parse);
  }

  // ---------------------------------------------------------------------
  // The result

  /** readQuarterData lists every accepted quarter and category exactly once,
      sorted, and gives every quarter a value for every category: the sum of
      the values of the rows with that pair, 0 when there are none. */
  lemma QuarterDataCorrect(excelPathRaw: string, rows: seq<RawRow>, parse: string -> JsNumber,
                           localeLeq: (string, string) -> bool)
    requires TotalPreorder(localeLeq)
    ensures var r := QuarterDataOf(excelPathRaw, rows, parse, localeLeq);
      var ts := Accepted(rows, parse);
      && r.excelPath == excelPathRaw
      && NoDuplicates(r.quarters) && Elems(r.quarters) == QuarterSet(ts)
      && SortedBy(r.quarters, QuarterLeq)
      && NoDuplicates(r.categories) && Elems(r.categories) == CategorySet(ts)
      && SortedBy(r.categories, localeLeq)
      && Dense(r)
      && forall i, c :: 0 <= i < |r.series| && c in r.series[i].values ==>
           r.series[i].values[c] == PairSum(ts, r.quarters[i], c)
  {
    var a := Accumulate(rows, parse);
    var ts := Accepted(rows, parse);
    AccumulateCorrect(rows, parse);
    var quarters, categories := SortQuarters(a.quarters), SortBy(a.categories, localeLeq);
    PermutationKeepsElems(a.quarters, quarters);
    PermutationKeepsElems(a.categories, categories);
    SeriesSums(quarters, categories, a.sums, ts);
  }

  /** The series built from sums that agree with PairSum is dense and holds
      those sums. */
  lemma SeriesSums(quarters: seq<string>, categories: seq<string>,
                   sums: map<string, map<string, real>>, ts: seq<Triple>)
    requires forall q, k :: Lookup(sums, q, k) == PairSum(ts, q, k)
    ensures var series := SeriesOf(quarters, categories, sums);
      && Dense(ToolResult("", quarters, categories, series))
      && forall i, c :: 0 <= i < |series| && c in series[i].values ==>
           series[i].values[c] == PairSum(ts, quarters[i], c)
  {
    var series := SeriesOf(quarters, categories, sums);
    forall i, c | 0 <= i < |series| && c in series[i].values
      ensures series[i].values[c] == PairSum(ts, quarters[i], c)
    {
      assert Lookup(sums, quarters[i], c) == PairSum(ts, quarters[i], c);
    }
  }

  /** Quarters come out in key order, and every unparsable quarter after
      every parsable one. */
  lemma QuartersInKeyOrder(excelPathRaw: string, rows: seq<RawRow>, parse: string -> JsNumber,
                           localeLeq: (string, string) -> bool, i: int, j: int)
    requires TotalPreorder(localeLeq)
    requires var r := QuarterDataOf(excelPathRaw, rows, parse, localeLeq); 0 <= i < j < |r.quarters|
    ensures var r := QuarterDataOf(excelPathRaw, rows, parse, localeLeq);
      var ki, kj := ParseQuarterId(r.quarters[i]), ParseQuarterId(r.quarters[j]);
      (ki.Infinite? ==> kj.Infinite?) && (ki.Key? && kj.Key? ==> ki.n <= kj.n)
  {
    QuarterDataCorrect(excelPathRaw, rows, parse, localeLeq);
  }

  /** Quarters with the same key keep the order in which the row loop first
      saw them. */
  lemma QuarterTiesKeepFirstSeenOrder(excelPathRaw: string, rows: seq<RawRow>, parse: string -> JsNumber,
                                      localeLeq: (string, string) -> bool, y: string)
    requires TotalPreorder(localeLeq)
    ensures Equivalents(QuarterDataOf(excelPathRaw, rows, parse, localeLeq).quarters, QuarterLeq, y)
         == Equivalents(Accumulate(rows, parse).quarters, QuarterLeq, y)
  {
    QuarterLeqTotalPreorder();
    SortStable(Accumulate(rows, parse).quarters, QuarterLeq, y);
  }

  // ---------------------------------------------------------------------
  // Worked examples

  lemma AccumulateTwo(r1: RawRow, r2: RawRow, parse: string -> JsNumber)
    ensures Accumulate([r1, r2], parse) == Step(Step(Agg([], [], map[]), r1, parse), r2, parse)
  {
    assert [r1][..0] == [];
    assert Accumulate([r1], parse) == Step(Agg([], [], map[]), r1, parse);
    assert [r1, r2][..1] == [r1];
  }

  lemma SortSingle<T(!new)>(x: T, leq: (T, T) -> bool)
    requires TotalPreorder(leq)
    ensures SortBy([x], leq) == [x]
  {
    assert [x][1..] == [];
  }

  lemma SingleSeries(q: string, k: string, v: real)
    ensures SeriesOf([q], [k], map[q := map[k := v]]) == [Entry(q, map[k := v])]
  {
    var series := SeriesOf([q], [k], map[q := map[k := v]]);
    assert Inner(map[q := map[k := v]], q) == map[k := v];
    assert DenseOf(map[k := v], [k]) == map[k := v];
    assert series[0] == Entry(q, map[k := v]);
  }

  /** The result for one quarter and one category with running sum v. */
  lemma SinglePairResult(excelPathRaw: string, rows: seq<RawRow>, parse: string -> JsNumber,
                         localeLeq: (string, string) -> bool, q: string, k: string, v: real)
    requires TotalPreorder(localeLeq)
    requires Accumulate(rows, parse) == Agg([q], [k], map[q := map[k := v]])
    ensures QuarterDataOf(excelPathRaw, rows, parse, localeLeq)
         == ToolResult(excelPathRaw, [q], [k], [Entry(q, map[k := v])])
  {
    var a := Accumulate(rows, parse);
    SortSingle(q, QuarterLeq);
    SortSingle(k, localeLeq);
    assert SortQuarters(a.quarters) == [q];
    assert SortBy(a.categories, localeLeq) == [k];
    SingleSeries(q, k, v);
  }

  lemma AddFirstTriple(q: string, k: string, x: real)
    ensures AddTriple(Agg([], [], map[]), Triple(q, k, x)) == Agg([q], [k], map[q := map[k := x]])
  {
    assert map[k := 0.0 + x] == map[k := x];
  }

  lemma AddSamePair(q: string, k: string, x: real, y: real)
    ensures AddTriple(Agg([q], [k], map[q := map[k := x]]), Triple(q, k, y))
         == Agg([q], [k], map[q := map[k := x + y]])
  {
    assert Inner(map[q := map[k := x]], q) == map[k := x];
    assert map[k := x][k := x + y] == map[k := x + y];
    assert map[q := map[k := x]][q := map[k := x + y]] == map[q := map[k := x + y]];
  }

  /** Two rows with the same quarter and category add up: 5 and 7 give 12. */
  lemma DuplicatePairsAddUp(excelPathRaw: string, r1: RawRow, r2: RawRow, parse: string -> JsNumber,
                            localeLeq: (string, string) -> bool, q: string, k: string)
    requires TotalPreorder(localeLeq)
    requires NormalizeRow(r1, parse) == Some(Triple(q, k, 5.0))
    requires NormalizeRow(r2, parse) == Some(Triple(q, k, 7.0))
    ensures QuarterDataOf(excelPathRaw, [r1, r2], parse, localeLeq)
         == ToolResult(excelPathRaw, [q], [k], [Entry(q, map[k := 12.0])])
  {
    AccumulateTwo(r1, r2, parse);
    AddFirstTriple(q, k, 5.0);
    AddSamePair(q, k, 5.0, 7.0);
    SinglePairResult(excelPathRaw, [r1, r2], parse, localeLeq, q, k, 12.0);
  }

  /** An apostrophe between two runs of digits and a trailing space are
      both stripped. */
  lemma StripSeparators(a: string, b: string)
    requires '\'' !in a && ' ' !in a && '\'' !in b && ' ' !in b
    ensures ValueText(Str(a + ['\''] + b + [' '])) == a + b
  {
    var q, sp := '\'', ' ';
    calc {
      RemoveChar(a + [q] + b + [sp], q);
      { RemoveCharConcat(a + [q] + b, [sp], q); }
      RemoveChar(a + [q] + b, q) + RemoveChar([sp], q);
      { RemoveCharConcat(a + [q], b, q); RemoveCharAbsent(b, q); }
      RemoveChar(a + [q], q) + b + RemoveChar([sp], q);
      { RemoveCharConcat(a, [q], q); RemoveCharAbsent(a, q); }
      a + RemoveChar([q], q) + b + RemoveChar([sp], q);
      { assert RemoveChar([q], q) == []; assert RemoveChar([sp], q) == [sp]; }
      a + [] + b + [sp];
      { assert a + [] == a; }
      a + b + [sp];
    }
    calc {
      RemoveChar(a + b + [sp], sp);
      { RemoveCharConcat(a + b, [sp], sp); RemoveCharAbsent(a + b, sp); }
      a + b + RemoveChar([sp], sp);
      { assert RemoveChar([sp], sp) == []; }
      a + b + [];
      { assert a + b + [] == a + b; }
      a + b;
    }
  }

  /** Apostrophes and spaces are thousands separators: "1'234 " is 1234. */
  lemma ValueWithSeparators(parse: string -> JsNumber)
    requires parse("1234") == Finite(1234.0)
    ensures ValueText(Str("1'234 ")) == "1234"
    ensures CoerceValue(Str("1'234 "), parse) == 1234.0
  {
    StripSeparators("1", "234");
    assert "1" + ['\''] + "234" + [' '] == "1'234 ";
    assert "1" + "234" == "1234";
  }

  /** A value that does not parse to a finite number counts as 0. */
  lemma NonNumericValueIsZero(v: Cell, parse: string -> JsNumber)
    requires !v.Num? && parse(ValueText(v)).NonFinite?
    ensures CoerceValue(v, parse) == 0.0
  {
  }

  /** A missing value reads as "0", so it counts as 0 when "0" parses to 0. */
  lemma MissingValueIsZero(parse: string -> JsNumber)
    requires parse("0") == Finite(0.0)
    ensures CoerceValue(Empty, parse) == 0.0
  {
    assert ValueText(Empty) == "0" by {
      RemoveCharAbsent("0", '\'');
      RemoveCharAbsent("0", ' ');
    }
  }

  lemma QuarterKeyNoDashFirst()
    ensures ParseQuarterId("2020Q1") == Key(8080)
  {
    YearValue("2020", 2020);
    KeyOfParts("2020Q1", "2020", 2020, "", false, "", '1', 8080);
  }

  lemma SortTwoTied(x: string, y: string)
    requires QuarterLeq(x, y) && QuarterLeq(y, x)
    ensures SortQuarters([x, y]) == [x, y]
  {
    QuarterLeqTotalPreorder();
    assert [x, y][1..] == [y] && [y][1..] == [];
  }

  /** The result depends on the order of the rows when two different quarter
      texts share a key: "2020Q1" and "2020-Q1" keep their first-seen order. */
  lemma RowOrderMatters(excelPathRaw: string, r1: RawRow, r2: RawRow, parse: string -> JsNumber,
                        localeLeq: (string, string) -> bool, k: string, v1: real, v2: real)
    requires TotalPreorder(localeLeq)
    requires NormalizeRow(r1, parse) == Some(Triple("2020Q1", k, v1))
    requires NormalizeRow(r2, parse) == Some(Triple("2020-Q1", k, v2))
    ensures QuarterDataOf(excelPathRaw, [r1, r2], parse, localeLeq).quarters == ["2020Q1", "2020-Q1"]
    ensures QuarterDataOf(excelPathRaw, [r2, r1], parse, localeLeq).quarters == ["2020-Q1", "2020Q1"]
  {
    QuarterKeyNoDashFirst();
    QuarterKeyDash();
    SortTwoTied("2020Q1", "2020-Q1");
    SortTwoTied("2020-Q1", "2020Q1");
    FirstSeenQuarters(r1, r2, parse, Triple("2020Q1", k, v1), Triple("2020-Q1", k, v2));
    FirstSeenQuarters(r2, r1, parse, Triple("2020-Q1", k, v2), Triple("2020Q1", k, v1));
  }

  lemma FirstSeenQuarters(r1: RawRow, r2: RawRow, parse: string -> JsNumber, t1: Triple, t2: Triple)
    requires NormalizeRow(r1, parse) == Some(t1) && NormalizeRow(r2, parse) == Some(t2)
    requires t1.quarter != t2.quarter
    ensures Accumulate([r1, r2], parse).quarters == [t1.quarter, t2.quarter]
  {
    AccumulateTwo(r1, r2, parse);
    var a1 := Step(Agg([], [], map[]), r1, parse);
    StepQuarters(Agg([], [], map[]), r1, parse, t1);
    StepQuarters(a1, r2, parse, t2);
    assert [] + [t1.quarter] == [t1.quarter];
  }

  lemma StepQuarters(a: Agg, row: RawRow, parse: string -> JsNumber, t: Triple)
    requires NormalizeRow(row, parse) == Some(t)
    ensures Step(a, row, parse).quarters == AddUnique(a.quarters, t.quarter)
  {
  }

  // ---------------------------------------------------------------------
  // Row order

  /** Rearranging the rows rearranges the accepted ones. */
  lemma {:induction false} FilterMapPermutation<A, B>(s1: seq<A>, s2: seq<A>, f: A -> Option<B>)
    requires multiset(s1) == multiset(s2)
    ensures multiset(FilterMap(s1, f)) == multiset(FilterMap(s2, f))
    decreases |s1|
  {
    if s1 == [] {
      assert |s2| == |multiset(s2)| == 0;
    } else {
      var init, x := s1[..|s1| - 1], s1[|s1| - 1];
      assert s1 == init + [x];
      assert x in multiset(s2);
      var j :| 0 <= j < |s2| && s2[j] == x;
      var before, after := s2[..j], s2[j + 1..];
      RemoveAtMultiset(s2, j);
      calc {
        multiset(init);
        multiset(init + [x]) - multiset{x};
        multiset(s2) - multiset{x};
        multiset(before + after);
      }
      FilterMapPermutation(init, before + after, f);
      var fx, fb, fa := FilterMap([x], f), FilterMap(before, f), FilterMap(after, f);
      FilterMapAppend(init, [x], f);
      FilterMapAppend(before + [x], after, f);
      FilterMapAppend(before, [x], f);
      FilterMapAppend(before, after, f);
      calc {
        multiset(FilterMap(s2, f));
        multiset(FilterMap(before + [x], f) + fa);
        multiset(fb + fx + fa);
        multiset(fb) + multiset(fx) + multiset(fa);
        { MultisetSwap(multiset(fb), multiset(fx), multiset(fa)); }
        multiset(fb) + multiset(fa) + multiset(fx);
        multiset(fb + fa) + multiset(fx);
        multiset(FilterMap(init, f)) + multiset(fx);
        multiset(FilterMap(init, f) + fx);
      }
    }
  }

  lemma MultisetSwap<T>(a: multiset<T>, b: multiset<T>, c: multiset<T>)
    ensures a + b + c == a + c + b
  {
  }

  lemma {:induction false} PairSumAppend(a: seq<Triple>, b: seq<Triple>, q: string, k: string)
    ensures PairSum(a + b, q, k) == PairSum(a, q, k) + PairSum(b, q, k)
    decreases |b|
  {
    if b == [] {
      assert a + b == a;
    } else {
      var b0 := b[..|b| - 1];
      PairSumAppend(a, b0, q, k);
      assert (a + b)[..|a + b| - 1] == a + b0;
      assert (a + b)[|a + b| - 1] == b[|b| - 1];
    }
  }

  /** The sum for a pair does not depend on the order of the rows. */
  lemma {:induction false} PairSumPermutation(ts1: seq<Triple>, ts2: seq<Triple>, q: string, k: string)
    requires multiset(ts1) == multiset(ts2)
    ensures PairSum(ts1, q, k) == PairSum(ts2, q, k)
    decreases |ts1|
  {
    if ts1 == [] {
      assert |ts2| == |multiset(ts2)| == 0;
    } else {
      var init, x := ts1[..|ts1| - 1], ts1[|ts1| - 1];
      assert ts1 == init + [x];
      assert x in multiset(ts2);
      var j :| 0 <= j < |ts2| && ts2[j] == x;
      var rest := ts2[..j] + ts2[j + 1..];
      assert multiset(init) == multiset(rest) by {
        RemoveAtMultiset(ts2, j);
        calc {
          multiset(init);
          multiset(init + [x]) - multiset{x};
          multiset(ts2) - multiset{x};
          multiset(rest);
        }
      }
      PairSumPermutation(init, rest, q, k);
      calc {
        PairSum(ts1, q, k);
        PairSum(init + [x], q, k);
        { PairSumAppend(init, [x], q, k); }
        PairSum(init, q, k) + PairSum([x], q, k);
        PairSum(rest, q, k) + PairSum([ts2[j]], q, k);
        { PairSumRemove(ts2, j, q, k); }
        PairSum(ts2, q, k);
      }
    }
  }

  /** Taking one triple out of the middle takes its part out of the sum. */
  lemma PairSumRemove(ts: seq<Triple>, j: nat, q: string, k: string)
    requires j < |ts|
    ensures PairSum(ts, q, k) == PairSum(ts[..j] + ts[j + 1..], q, k) + PairSum([ts[j]], q, k)
  {
    var before, after := ts[..j], ts[j + 1..];
    RemoveAtMultiset(ts, j);
    PairSumAppend(before + [ts[j]], after, q, k);
    PairSumAppend(before, [ts[j]], q, k);
    PairSumAppend(before, after, q, k);
  }

  lemma SetsPermutation(ts1: seq<Triple>, ts2: seq<Triple>)
    requires multiset(ts1) == multiset(ts2)
    ensures QuarterSet(ts1) == QuarterSet(ts2) && CategorySet(ts1) == CategorySet(ts2)
  {
    assert forall t :: t in ts1 <==> t in multiset(ts1);
    assert forall t :: t in ts2 <==> t in multiset(ts2);
  }

  /** No two distinct strings of `xs` does `leq` call equal. */
  ghost predicate TieFree(xs: set<string>, leq: (string, string) -> bool) {
    forall x, y :: x in xs && y in xs && leq(x, y) && leq(y, x) ==> x == y
  }

  lemma SortedSetsAgree(s1: seq<string>, s2: seq<string>, leq: (string, string) -> bool)
    requires TotalPreorder(leq)
    requires NoDuplicates(s1) && NoDuplicates(s2) && Elems(s1) == Elems(s2)
    requires TieFree(Elems(s1), leq)
    ensures SortBy(s1, leq) == SortBy(s2, leq)
  {
    SameElemsSameMultiset(s1, s2);
    SortOrderIndependent(s1, s2, leq);
  }

  lemma SameValuesSameDense(m1: map<string, real>, m2: map<string, real>, categories: seq<string>)
    requires forall c :: Get(m1, c) == Get(m2, c)
    ensures DenseOf(m1, categories) == DenseOf(m2, categories)
  {
  }

  /** When no two distinct quarters share a key and no two distinct
      categories compare equal, the result does not depend on the order of
      the rows. */
  lemma RowOrderIrrelevantWithoutTies(excelPathRaw: string, rows1: seq<RawRow>, rows2: seq<RawRow>,
                                      parse: string -> JsNumber, localeLeq: (string, string) -> bool)
    requires TotalPreorder(localeLeq)
    requires multiset(rows1) == multiset(rows2)
    requires TieFree(QuarterSet(Accepted(rows1, parse)), QuarterLeq)
    requires TieFree(CategorySet(Accepted(rows1, parse)), localeLeq)
    ensures QuarterDataOf(excelPathRaw, rows1, parse, localeLeq)
         == QuarterDataOf(excelPathRaw, rows2, parse, localeLeq)
  {
    QuarterLeqTotalPreorder();
    var ts1, ts2 := Accepted(rows1, parse), Accepted(rows2, parse);
    FilterMapPermutation(rows1, rows2, row => NormalizeRow(row, parse));
    SetsPermutation(ts1, ts2);
    var a1, a2 := Accumulate(rows1, parse), Accumulate(rows2, parse);
    AccumulateCorrect(rows1, parse);
    AccumulateCorrect(rows2, parse);
    SortedSetsAgree(a1.quarters, a2.quarters, QuarterLeq);
    SortedSetsAgree(a1.categories, a2.categories, localeLeq);
    var quarters := SortQuarters(a1.quarters);
    var categories := SortBy(a1.categories, localeLeq);
    forall q ensures DenseOf(Inner(a1.sums, q), categories) == DenseOf(Inner(a2.sums, q), categories) {
      forall c ensures Get(Inner(a1.sums, q), c) == Get(Inner(a2.sums, q), c) {
        PairSumPermutation(ts1, ts2, q, c);
      }
      SameValuesSameDense(Inner(a1.sums, q), Inner(a2.sums, q), categories);
    }
    SameSumsSameSeries(quarters, categories, a1.sums, a2.sums);
  }

  lemma SameSumsSameSeries(quarters: seq<string>, categories: seq<string>,
                           s1: map<string, map<string, real>>, s2: map<string, map<string, real>>)
    requires forall q :: DenseOf(Inner(s1, q), categories) == DenseOf(Inner(s2, q), categories)
    ensures SeriesOf(quarters, categories, s1) == SeriesOf(quarters, categories, s2)
  {
  }
}
