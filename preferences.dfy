/** The preference logic of ui/main.ts: colour validation, the two
    localStorage stores and their filters, the published defaults, the
    category order merge, the drag-and-drop move and the colour fallback. */
module Preferences {
  import opened Text
  import opened Optional
  import opened Collections

  // ---------------------------------------------------------------------
  // JSON values and stored items

  /** A value JSON.parse can produce. Object keys are unique; their order is
      not modelled. */
  datatype Json = JNull | JBool(b: bool) | JNum(r: real) | JStr(s: string)
                | JArr(items: seq<Json>) | JObj(fields: map<string, Json>)

  /** A localStorage item after JSON.parse: missing or empty, text that does
      not parse, or a parsed value. */
  datatype Stored = Absent | Unparsable | Parsed(value: Json)

  lemma NatToStringInjectiveAll()
    ensures forall a: nat, b: nat :: NatToString(a) == NatToString(b) ==> a == b
  {
    forall a: nat, b: nat ensures NatToString(a) == NatToString(b) ==> a == b {
      NatToStringInjective(a, b);
    }
  }

  /** Object.entries(j) as a map: an object's own fields, an array's or a
      string's indices, nothing for the other values. (Object.entries(null)
      throws; every caller then ends with no entries as well.) */
  function Entries(j: Json): map<string, Json> {
    NatToStringInjectiveAll();
    match j
    case JObj(fields) => fields
    case JArr(items) => map i: nat | i < |items| :: NatToString(i) := items[i]
    case JStr(s) => map i: nat | i < |s| :: NatToString(i) := JStr([s[i]])
    case _ => map[]
  }

  /** The items of an array that are strings, in order. */
  function StringItems(items: seq<Json>): (r: seq<string>)
    ensures forall x :: x in r <==> JStr(x) in items
  {
    if items == [] then []
    else
      var rest := StringItems(items[1..]);
      assert forall x :: JStr(x) in items <==> JStr(x) == items[0] || JStr(x) in items[1..];
      if items[0].JStr? then [items[0].s] + rest else rest
  }

  /** The filter works item by item: filtering a concatenation concatenates
      the filtered parts, so the kept strings keep their order and repeats. */
  lemma {:induction false} StringItemsAppend(a: seq<Json>, b: seq<Json>)
    ensures StringItems(a + b) == StringItems(a) + StringItems(b)
  {
    if a == [] {
      assert a + b == b;
    } else {
      assert (a + b)[0] == a[0] && (a + b)[1..] == a[1..] + b;
      StringItemsAppend(a[1..], b);
    }
  }

  /** A single item is kept exactly when it is a string. */
  lemma StringItemsOne(j: Json)
    ensures StringItems([j]) == (if j.JStr? then [j.s] else [])
  {
  }

  function AsJsonStrings(s: seq<string>): (r: seq<Json>)
    ensures |r| == |s| && forall i :: 0 <= i < |s| ==> r[i] == JStr(s[i])
  {
    if s == [] then [] else [JStr(s[0])] + AsJsonStrings(s[1..])
  }

  // ---------------------------------------------------------------------
  // isValidHexColor

  predicate IsHexDigit(c: char) {
    '0' <= c <= '9' || 'a' <= c <= 'f' || 'A' <= c <= 'F'
  }

  predicate AllHex(s: string) {
    forall i :: 0 <= i < |s| ==> IsHexDigit(s[i])
  }

  /** A # followed by exactly six hexadecimal digits, either case. */
  predicate IsHexColorText(t: string) {
    |t| == 7 && t[0] == '#' && AllHex(t[1..])
  }

  /** isValidHexColor: the trimmed text is # and six hexadecimal digits. */
  predicate IsValidHexColor(s: string) {
    IsHexColorText(Trim(s))
  }

  /** `s` is # and six hexadecimal digits with whitespace around them. */
  ghost predicate PaddedHexColor(s: string) {
    exists w1, h, w2 :: AllWhitespace(w1) && AllWhitespace(w2) && |h| == 6 && AllHex(h)
                        && s == w1 + ("#" + h) + w2
  }

  lemma HexColorPadded(w1: string, h: string, w2: string)
    requires AllWhitespace(w1) && AllWhitespace(w2) && |h| == 6 && AllHex(h)
    ensures IsValidHexColor(w1 + ("#" + h) + w2)
  {
    var t := "#" + h;
    assert !IsWhitespace(t[|t| - 1]) by {
      assert IsHexDigit(h[5]);
    }
    TrimPadded(w1, t, w2);
    assert t[1..] == h;
  }

  /** isValidHexColor accepts exactly the padded texts of the pattern. */
  lemma ValidHexColorIff(s: string)
    ensures IsValidHexColor(s) <==> PaddedHexColor(s)
  {
    if IsValidHexColor(s) {
      var w1 := TrimStartSplit(s);
      var w2 := TrimEndSplit(TrimStart(s));
      var t := Trim(s);
      assert t == "#" + t[1..];
      assert s == w1 + ("#" + t[1..]) + w2;
    }
    if PaddedHexColor(s) {
      var w1, h, w2 :| AllWhitespace(w1) && AllWhitespace(w2) && |h| == 6 && AllHex(h)
                       && s == w1 + ("#" + h) + w2;
      HexColorPadded(w1, h, w2);
    }
  }

  lemma ToUpperAppend(a: string, b: string)
    ensures ToUpper(a + b) == ToUpper(a) + ToUpper(b)
  {
  }

  lemma ToUpperWhitespace(w: string)
    requires AllWhitespace(w)
    ensures ToUpper(w) == w
  {
    assert forall c :: IsWhitespace(c) ==> UpperChar(c) == c;
  }

  /** Upper-casing a valid colour keeps it valid. */
  lemma UpperKeepsValid(s: string)
    requires IsValidHexColor(s)
    ensures IsValidHexColor(ToUpper(s))
  {
    ValidHexColorIff(s);
    var w1, h, w2 :| AllWhitespace(w1) && AllWhitespace(w2) && |h| == 6 && AllHex(h)
                     && s == w1 + ("#" + h) + w2;
    ToUpperAppend(w1 + ("#" + h), w2);
    ToUpperAppend(w1, "#" + h);
    ToUpperAppend("#", h);
    ToUpperWhitespace(w1);
    ToUpperWhitespace(w2);
    assert ToUpper("#") == "#";
    HexColorPadded(w1, ToUpper(h), w2);
  }

  // ---------------------------------------------------------------------
  // Colour filters

  /** The entries whose value is a string isValidHexColor accepts, kept as
      they are or, with `upper`, upper-cased. */
  function ValidColors(entries: map<string, Json>, upper: bool): map<string, string> {
    map k | k in entries && KeepsColor(entries[k]) :: ColorValue(entries[k], upper)
  }

  /** An entry the colour filters keep: a string isValidHexColor accepts. */
  predicate KeepsColor(v: Json) {
    v.JStr? && IsValidHexColor(v.s)
  }

  function ColorValue(v: Json, upper: bool): string
    requires v.JStr?
  {
    if upper then ToUpper(v.s) else v.s
  }

  /** The loop over Object.entries shared by loadColorOverrides,
      loadPublishedColorDefaults and sanitizePublishedDefaults. */
  method FilterColors(entries: map<string, Json>, upper: bool) returns (out: map<string, string>)
    ensures out == ValidColors(entries, upper)
  {
    out := map[];
    var todo := entries.Keys;
    while todo != {}
      invariant todo <= entries.Keys
      invariant forall k :: k in out <==> k in entries && k !in todo && KeepsColor(entries[k])
      invariant forall k :: k in out ==> entries[k].JStr? && out[k] == ColorValue(entries[k], upper)
      decreases |todo|
    {
      var k :| k in todo;
      var v := entries[k];
      if v.JStr? && IsValidHexColor(v.s) {
        out := out[k := if upper then ToUpper(v.s) else v.s];
      }
      todo := todo - {k};
    }
  }

  /** Every colour that survives the filter is valid. */
  lemma ValidColorsAreValid(entries: map<string, Json>, upper: bool)
    ensures var m := ValidColors(entries, upper);
      forall k :: k in m ==> IsValidHexColor(m[k]) && (k in entries && entries[k].JStr?)
  {
    forall k | k in ValidColors(entries, upper) && upper {
      UpperKeepsValid(entries[k].s);
    }
  }

  /** The colour overrides loadColorOverrides returns for a stored item. */
  function ColorOverridesOf(st: Stored): map<string, string> {
    match st
    case Parsed(j) => ValidColors(Entries(j), false)
    case _ => map[]
  }

  /** loadColorOverrides. */
  method LoadColorOverrides(st: Stored) returns (m: map<string, string>)
    ensures m == ColorOverridesOf(st)
  {
    match st {
      case Parsed(j) =>
        m := FilterColors(Entries(j), false);
      case _ =>
        m := map[];
    }
  }

  function ColorsAsJson(m: map<string, string>): map<string, Json> {
    map k | k in m :: JStr(m[k])
  }

  /** saveColorOverrides: the item JSON.parse reads back. */
  function SavedColors(m: map<string, string>): Stored {
    Parsed(JObj(ColorsAsJson(m)))
  }

  /** Saving valid overrides and loading them again gives them back; invalid
      ones are dropped on load. */
  lemma ColorOverridesRoundTrip(m: map<string, string>)
    ensures forall k :: k in ColorOverridesOf(SavedColors(m)) <==> k in m && IsValidHexColor(m[k])
    ensures (forall k :: k in m ==> IsValidHexColor(m[k])) ==> ColorOverridesOf(SavedColors(m)) == m
  {
  }

  /** Loading is idempotent: what was loaded loads unchanged. */
  lemma ColorOverridesIdempotent(st: Stored)
    ensures ColorOverridesOf(SavedColors(ColorOverridesOf(st))) == ColorOverridesOf(st)
  {
    match st {
      case Parsed(j) => ValidColorsAreValid(Entries(j), false);
      case _ =>
    }
  }

  // ---------------------------------------------------------------------
  // The category order store

  /** loadCategoryOrder: the string items of a stored array, else []. */
  function CategoryOrderOf(st: Stored): seq<string> {
    match st
    case Parsed(JArr(items)) => StringItems(items)
    case _ => []
  }

  /** saveCategoryOrder. */
  function SavedOrder(order: seq<string>): Stored {
    Parsed(JArr(AsJsonStrings(order)))
  }

  lemma {:induction false} StringItemsOfStrings(s: seq<string>)
    ensures StringItems(AsJsonStrings(s)) == s
  {
    if s != [] {
      assert AsJsonStrings(s)[1..] == AsJsonStrings(s[1..]);
      StringItemsOfStrings(s[1..]);
    }
  }

  /** A saved order loads back unchanged. */
  lemma CategoryOrderRoundTrip(order: seq<string>)
    ensures CategoryOrderOf(SavedOrder(order)) == order
  {
    StringItemsOfStrings(order);
  }

  // ---------------------------------------------------------------------
  // Published defaults

  datatype Defaults = Defaults(colors: Option<map<string, string>>, order: Option<seq<string>>)

  /** A truthy value whose type is "object": an object or an array. */
  predicate IsObjectLike(j: Json) {
    j.JObj? || j.JArr?
  }

  /** What sanitizePublishedDefaults returns. */
  function SanitizedDefaults(input: Json): Defaults {
    match input
    case JObj(fields) =>
      Defaults(
        if "colorsByCategory" in fields && IsObjectLike(fields["colorsByCategory"])
        then Some(ValidColors(Entries(fields["colorsByCategory"]), true)) else None,
        if "categoryOrder" in fields && fields["categoryOrder"].JArr?
        then Some(StringItems(fields["categoryOrder"].items)) else None)
    case _ => Defaults(None, None)
  }

  /** sanitizePublishedDefaults. */
  method SanitizePublishedDefaults(input: Json) returns (out: Defaults)
    ensures out == SanitizedDefaults(input)
  {
    out := Defaults(None, None);
    if input.JObj? {
      var fields := input.fields;
      if "colorsByCategory" in fields && IsObjectLike(fields["colorsByCategory"]) {
        var m := FilterColors(Entries(fields["colorsByCategory"]), true);
        out := out.(colors := Some(m));
      }
      if "categoryOrder" in fields && fields["categoryOrder"].JArr? {
        out := out.(order := Some(StringItems(fields["categoryOrder"].items)));
      }
    }
  }

  /** Sanitized defaults hold only valid colours, each upper-cased from a
      string entry of the input. */
  lemma SanitizedColorsValid(input: Json)
    ensures var d := SanitizedDefaults(input);
      d.colors.Some? ==> forall k :: k in d.colors.value ==>
        IsValidHexColor(d.colors.value[k]) && d.colors.value[k] == ToUpper(Entries(input.fields["colorsByCategory"])[k].s)
  {
    if input.JObj? && "colorsByCategory" in input.fields && IsObjectLike(input.fields["colorsByCategory"]) {
      ValidColorsAreValid(Entries(input.fields["colorsByCategory"]), true);
    }
  }

  /** A value that is not an object yields empty defaults. */
  lemma SanitizeNonObject(input: Json)
    requires !input.JObj?
    ensures SanitizedDefaults(input) == Defaults(None, None)
  {
  }

  /** loadPublishedColorDefaults. */
  function PublishedColorsOf(p: Option<Defaults>): map<string, string> {
    if p.Some? && p.value.colors.Some? then ValidColors(ColorsAsJson(p.value.colors.value), false)
    else map[]
  }

  method LoadPublishedColorDefaults(p: Option<Defaults>) returns (m: map<string, string>)
    ensures m == PublishedColorsOf(p)
  {
    if p.Some? && p.value.colors.Some? {
      m := FilterColors(ColorsAsJson(p.value.colors.value), false);
    } else {
      m := map[];
    }
  }

  /** loadPublishedCategoryOrder. */
  function PublishedOrderOf(p: Option<Defaults>): seq<string> {
    if p.Some? && p.value.order.Some? then p.value.order.value else []
  }

  /** The filter in loadPublishedColorDefaults changes nothing on sanitized
      defaults. */
  lemma PublishedColorsOfSanitized(input: Json)
    ensures var d := SanitizedDefaults(input);
      d.colors.Some? ==> PublishedColorsOf(Some(d)) == d.colors.value
  {
    SanitizedColorsValid(input);
  }

  // ---------------------------------------------------------------------
  // getOrderedCategories

  /** The saved order if it is non-empty, else the published one. */
  function OrderBase(saved: seq<string>, published: seq<string>): seq<string> {
    if |saved| > 0 then saved else published
  }

  /** The entries of `base` that are categories, in base order. */
  function KnownInOrder(base: seq<string>, categories: seq<string>): (r: seq<string>)
    ensures forall x :: x in r <==> x in base && x in categories
    ensures |r| <= |base|
  {
    if base == [] then []
    else
      var rest := KnownInOrder(base[..|base| - 1], categories);
      assert forall x :: x in base <==> x in base[..|base| - 1] || x == base[|base| - 1];
      if base[|base| - 1] in categories then rest + [base[|base| - 1]] else rest
  }

  /** The first loop works entry by entry: the known entries of a
      concatenation are those of its parts, in base order. */
  lemma {:induction false} KnownInOrderAppend(a: seq<string>, b: seq<string>, categories: seq<string>)
    ensures KnownInOrder(a + b, categories) == KnownInOrder(a, categories) + KnownInOrder(b, categories)
  {
    if b == [] {
      assert a + b == a;
    } else {
      var init := b[..|b| - 1];
      assert (a + b)[..|a + b| - 1] == a + init;
      assert (a + b)[|a + b| - 1] == b[|b| - 1];
      KnownInOrderAppend(a, init, categories);
    }
  }

  /** A single entry is kept exactly when it is a category. */
  lemma KnownInOrderOne(x: string, categories: seq<string>)
    ensures KnownInOrder([x], categories) == (if x in categories then [x] else [])
  {
  }

  /** The second loop: each category not yet listed is appended. */
  function AppendMissing(ordered: seq<string>, categories: seq<string>): seq<string> {
    if categories == [] then ordered
    else
      var acc := AppendMissing(ordered, categories[..|categories| - 1]);
      var k := categories[|categories| - 1];
      if k in acc then acc else acc + [k]
  }

  /** What getOrderedCategories returns. */
  function OrderedCategoriesOf(categories: seq<string>, saved: seq<string>, published: seq<string>): (r: seq<string>)
    ensures Elems(categories) <= Elems(r)
  {
    var base := OrderBase(saved, published);
    if base == [] then categories
    else
      var known := KnownInOrder(base, categories);
      AppendMissingProps(known, categories);
      AppendMissing(known, categories)
  }

  /** getOrderedCategories, given what loadCategoryOrder and
      loadPublishedCategoryOrder return. */
  method GetOrderedCategories(categories: seq<string>, saved: seq<string>, published: seq<string>)
    returns (ordered: seq<string>)
    ensures ordered == OrderedCategoriesOf(categories, saved, published)
  {
    var base := if |saved| > 0 then saved else published;
    if |base| == 0 {
      return categories;
    }
    ordered := [];
    for i := 0 to |base|
      invariant ordered == KnownInOrder(base[..i], categories)
    {
      assert base[..i + 1][..i] == base[..i];
      if base[i] in categories {
        ordered := ordered + [base[i]];
      }
    }
    assert base[..|base|] == base;
    var known := ordered;
    for i := 0 to |categories|
      invariant ordered == AppendMissing(known, categories[..i])
    {
      assert categories[..i + 1][..i] == categories[..i];
      if categories[i] !in ordered {
        ordered := ordered + [categories[i]];
      }
    }
    assert categories[..|categories|] == categories;
  }

  lemma {:induction false} AppendMissingProps(ordered: seq<string>, categories: seq<string>)
    ensures var r := AppendMissing(ordered, categories);
      && |r| >= |ordered| && r[..|ordered|] == ordered
      && Elems(r) == Elems(ordered) + Elems(categories)
      && (NoDuplicates(ordered) ==> NoDuplicates(r))
  {
    if categories != [] {
      var init := categories[..|categories| - 1];
      AppendMissingProps(ordered, init);
      var acc := AppendMissing(ordered, init);
      assert Elems(categories) == Elems(init) + {categories[|categories| - 1]} by {
        assert categories == init + [categories[|categories| - 1]];
      }
      var k := categories[|categories| - 1];
      assert forall x :: x in acc <==> x in Elems(acc);
      if k !in acc {
        assert (acc + [k])[..|ordered|] == acc[..|ordered|];
        assert Elems(acc + [k]) == Elems(acc) + {k};
      }
    }
  }

  lemma {:induction false} KnownInOrderNoDuplicates(base: seq<string>, categories: seq<string>)
    requires NoDuplicates(base)
    ensures NoDuplicates(KnownInOrder(base, categories))
  {
    if base != [] {
      var init := base[..|base| - 1];
      KnownInOrderNoDuplicates(init, categories);
      assert base[|base| - 1] !in init;
    }
  }

  /** The merged order lists exactly the categories, starting with the known
      entries of the saved (else published) order in that order. */
  lemma OrderedCategoriesProps(categories: seq<string>, saved: seq<string>, published: seq<string>)
    ensures var r := OrderedCategoriesOf(categories, saved, published);
      var base := OrderBase(saved, published);
      var known := KnownInOrder(base, categories);
      && Elems(r) == Elems(categories)
      && (base != [] ==> |known| <= |r| && r[..|known|] == known)
  {
    var base := OrderBase(saved, published);
    if base != [] {
      var known := KnownInOrder(base, categories);
      AppendMissingProps(known, categories);
    }
  }

  /** Without repeats in the order and in the categories, the merged order is
      a rearrangement of the categories. */
  lemma OrderedCategoriesPermutation(categories: seq<string>, saved: seq<string>, published: seq<string>)
    requires NoDuplicates(OrderBase(saved, published)) && NoDuplicates(categories)
    ensures multiset(OrderedCategoriesOf(categories, saved, published)) == multiset(categories)
  {
    var base := OrderBase(saved, published);
    if base != [] {
      var known := KnownInOrder(base, categories);
      KnownInOrderNoDuplicates(base, categories);
      AppendMissingProps(known, categories);
      OrderedCategoriesProps(categories, saved, published);
      SameElemsSameMultiset(OrderedCategoriesOf(categories, saved, published), categories);
    }
  }

  /** Categories missing from the order follow in dataset order. */
  lemma {:induction false} AppendMissingFilter(ordered: seq<string>, categories: seq<string>)
    requires NoDuplicates(categories)
    ensures AppendMissing(ordered, categories) == ordered + Missing(categories, ordered)
  {
    if categories != [] {
      var init := categories[..|categories| - 1];
      var k := categories[|categories| - 1];
      AppendMissingFilter(ordered, init);
      assert k !in init;
      MissingElems(init, ordered);
    }
  }

  /** The categories not listed in `ordered`, in dataset order. */
  function Missing(categories: seq<string>, ordered: seq<string>): seq<string> {
    if categories == [] then []
    else
      var k := categories[|categories| - 1];
      Missing(categories[..|categories| - 1], ordered) + (if k in ordered then [] else [k])
  }

  lemma {:induction false} MissingElems(categories: seq<string>, ordered: seq<string>)
    ensures forall x :: x in Missing(categories, ordered) <==> x in categories && x !in ordered
  {
    if categories != [] {
      MissingElems(categories[..|categories| - 1], ordered);
      assert categories == categories[..|categories| - 1] + [categories[|categories| - 1]];
    }
  }

  /** The worked example: categories [A, B, C, D] with the saved order [C, A]
      show as [C, A, B, D]. */
  lemma OrderExample(a: string, b: string, c: string, d: string, published: seq<string>)
    requires NoDuplicates([a, b, c, d])
    ensures OrderedCategoriesOf([a, b, c, d], [c, a], published) == [c, a, b, d]
  {
    var cats := [a, b, c, d];
    assert a != b && a != c && b != c && a != d && c != d by {
      assert cats[0] != cats[1] && cats[0] != cats[2] && cats[1] != cats[2];
      assert cats[0] != cats[3] && cats[2] != cats[3];
    }
    assert KnownInOrder([c, a], cats) == [c, a] by {
      assert [c, a][..1] == [c] && [c][..0] == [];
    }
    AppendMissingFilter([c, a], cats);
    assert Missing(cats, [c, a]) == [b, d] by {
      MissingExample(a, b, c, d);
    }
  }

  lemma MissingExample(a: string, b: string, c: string, d: string)
    requires a != b && a != c && b != c && a != d && c != d
    ensures Missing([a, b, c, d], [c, a]) == [b, d]
  {
    var cats := [a, b, c, d];
    assert cats[..3] == [a, b, c] && cats[..3][..2] == [a, b] && cats[..2][..1] == [a] && cats[..1][..0] == [];
    assert Missing([a], [c, a]) == [];
    assert Missing([a, b], [c, a]) == [b];
    assert Missing([a, b, c], [c, a]) == [b];
  }

  /** A saved order that lists exactly the categories is shown as it is. */
  lemma ShowsCompleteOrder(categories: seq<string>, order: seq<string>, published: seq<string>)
    requires order != [] && Elems(order) == Elems(categories)
    ensures OrderedCategoriesOf(categories, order, published) == order
  {
    assert forall x :: x in order <==> x in Elems(order);
    assert forall x :: x in categories <==> x in Elems(categories);
    KnownAll(order, categories);
    AppendMissingNothing(order, categories);
  }

  /** Saving the shown order and showing it again changes nothing. */
  lemma OrderedCategoriesIdempotent(categories: seq<string>, saved: seq<string>, published: seq<string>)
    ensures var r := OrderedCategoriesOf(categories, saved, published);
      OrderedCategoriesOf(categories, r, published) == r
  {
    var r := OrderedCategoriesOf(categories, saved, published);
    OrderedCategoriesProps(categories, saved, published);
    if r != [] {
      ShowsCompleteOrder(categories, r, published);
    } else {
      assert forall x :: x in categories <==> x in Elems(categories);
      assert categories == [];
      KnownNone(published);
    }
  }

  lemma KnownNone(base: seq<string>)
    ensures KnownInOrder(base, []) == []
  {
  }

  lemma {:induction false} KnownAll(base: seq<string>, categories: seq<string>)
    requires forall x :: x in base ==> x in categories
    ensures KnownInOrder(base, categories) == base
  {
    if base != [] {
      KnownAll(base[..|base| - 1], categories);
    }
  }

  lemma {:induction false} AppendMissingNothing(ordered: seq<string>, categories: seq<string>)
    requires forall x :: x in categories ==> x in ordered
    ensures AppendMissing(ordered, categories) == ordered
  {
    if categories != [] {
      AppendMissingNothing(ordered, categories[..|categories| - 1]);
    }
  }

  // ---------------------------------------------------------------------
  // The drop handler's splice

  /** Array.prototype.indexOf. */
  function IndexOf(s: seq<string>, x: string): (r: int)
    ensures -1 <= r < |s|
    ensures r == -1 <==> x !in s
    ensures r >= 0 ==> s[r] == x && x !in s[..r]
  {
    if s == [] then -1
    else if s[0] == x then 0
    else
      var r := IndexOf(s[1..], x);
      assert s[1..] == s[1..];
      if r < 0 then -1 else (assert s[..r + 1] == [s[0]] + s[1..][..r]; r + 1)
  }

  /** Take the element at index i out, then insert it at index j of what is left. */
  function Move(s: seq<string>, i: nat, j: nat): (r: seq<string>)
    requires i < |s| && j < |s|
    ensures |r| == |s| && r[j] == s[i]
  {
    var rest := RemoveAt(s, i);
    rest[..j] + [s[i]] + rest[j..]
  }

  /** The moved element lands at the target index, nothing is lost or added,
      and the others keep their relative order. */
  lemma MoveProps(s: seq<string>, i: nat, j: nat)
    requires i < |s| && j < |s|
    ensures var r := Move(s, i, j);
      && |r| == |s| && r[j] == s[i]
      && multiset(r) == multiset(s)
      && RemoveAt(r, j) == RemoveAt(s, i)
  {
    var rest := RemoveAt(s, i);
    var r := Move(s, i, j);
    assert s == s[..i] + [s[i]] + s[i + 1..];
    assert r[..j] == rest[..j] && r[j + 1..] == rest[j..];
    assert rest == rest[..j] + rest[j..];
    calc {
      multiset(r);
      multiset(rest[..j]) + multiset{s[i]} + multiset(rest[j..]);
      multiset(rest) + multiset{s[i]};
      multiset(s[..i]) + multiset(s[i + 1..]) + multiset{s[i]};
      multiset(s);
    }
  }

  // ---------------------------------------------------------------------
  // Colours

  /** The position on the turbo scale of the i-th of n categories. */
  function TurboPosition(i: nat, n: nat): real {
    0.15 + 0.7 * (i as real / (if n - 1 > 1 then n - 1 else 1) as real)
  }

  lemma TurboPositionRange(i: nat, n: nat)
    requires i < n
    ensures 0.15 <= TurboPosition(i, n) <= 0.85
  {
    var d := (if n - 1 > 1 then n - 1 else 1) as real;
    assert 0.0 <= i as real / d <= 1.0 by {
      assert i as real <= d;
    }
  }

  /** The default colours in render: category i gets turbo(0.15 + 0.7 t),
      t running from 0 to 1 over the ordered categories; a repeated
      category keeps the colour of its last position. */
  method DefaultColors(categories: seq<string>, turbo: real -> string) returns (m: map<string, string>)
    ensures m.Keys == Elems(categories)
    ensures forall i :: 0 <= i < |categories| && categories[i] !in categories[i + 1..] ==>
      m[categories[i]] == turbo(TurboPosition(i, |categories|))
  {
    m := map[];
    for i := 0 to |categories|
      invariant m.Keys == Elems(categories[..i])
      invariant forall j :: 0 <= j < i && categories[j] !in categories[j + 1..i] ==>
        m[categories[j]] == turbo(TurboPosition(j, |categories|))
    {
      assert categories[..i + 1] == categories[..i] + [categories[i]];
      m := m[categories[i] := turbo(TurboPosition(i, |categories|))];
      forall j | 0 <= j < i + 1 && categories[j] !in categories[j + 1..i + 1]
        ensures m[categories[j]] == turbo(TurboPosition(j, |categories|))
      {
        if j < i {
          assert categories[j + 1..i + 1] == categories[j + 1..i] + [categories[i]];
        }
      }
    }
    assert categories[..|categories|] == categories;
  }

  /** The colour of a category: its override, else its published colour,
      else its default, else #999. */
  function EffectiveColor(k: string, overrides: map<string, string>, published: map<string, string>,
                          defaults: map<string, string>): (c: string)
    ensures c in overrides.Values || c in published.Values || c in defaults.Values || c == "#999"
    ensures c == "#999" ==> k !in overrides || overrides[k] == "#999"
  {
    if k in overrides then overrides[k]
    else if k in published then published[k]
    else if k in defaults then defaults[k]
    else "#999"
  }

  /** Setting the colour of one category changes what that category shows
      and nothing else. */
  lemma EffectiveColorUpdate(k: string, sel: string, v: string, overrides: map<string, string>,
                             published: map<string, string>, defaults: map<string, string>)
    ensures EffectiveColor(sel, overrides[sel := v], published, defaults) == v
    ensures k != sel ==>
      EffectiveColor(k, overrides[sel := v], published, defaults) == EffectiveColor(k, overrides, published, defaults)
  {
  }

  /** An override always wins; without one, a published colour wins over
      the default; only a category without any colour falls back to #999. */
  lemma EffectiveColorPrecedence(k: string, overrides: map<string, string>, published: map<string, string>,
                                 defaults: map<string, string>)
    ensures k in overrides ==> EffectiveColor(k, overrides, published, defaults) == overrides[k]
    ensures k !in overrides && k in published ==> EffectiveColor(k, overrides, published, defaults) == published[k]
    ensures k !in overrides && k !in published && k in defaults ==>
      EffectiveColor(k, overrides, published, defaults) == defaults[k]
    ensures k !in overrides && k !in published && k !in defaults ==>
      EffectiveColor(k, overrides, published, defaults) == "#999"
  {
  }
}
