/** Array.prototype.sort with a consistent comparator, as a stable insertion
    sort by a total preorder `leq` ("a sorts no later than b"). Elements that
    the comparator calls equal keep their input order, as the TimSort of
    current JavaScript engines guarantees. */
module Sorting {

  /** A comparator that is total and transitive; it may call distinct
      elements equal. */
  ghost predicate TotalPreorder<T(!new)>(leq: (T, T) -> bool) {
    && (forall a, b :: leq(a, b) || leq(b, a))
    && (forall a, b, c :: leq(a, b) && leq(b, c) ==> leq(a, c))
  }

  predicate SortedBy<T>(s: seq<T>, leq: (T, T) -> bool) {
    forall i, j :: 0 <= i < j < |s| ==> leq(s[i], s[j])
  }

  /** The comparator calls no two distinct elements of `s` equal. */
  predicate NoTies<T(==)>(s: seq<T>, leq: (T, T) -> bool) {
    forall i, j :: 0 <= i < |s| && 0 <= j < |s| && leq(s[i], s[j]) && leq(s[j], s[i]) ==> s[i] == s[j]
  }

  /** Places `x` in front of the first element it sorts no later than. */
  function Insert<T(!new)>(x: T, s: seq<T>, leq: (T, T) -> bool): (r: seq<T>)
    requires TotalPreorder(leq)
    ensures multiset(r) == multiset(s) + multiset{x}
  {
    if s == [] || leq(x, s[0]) then [x] + s
    else
      assert s == [s[0]] + s[1..];
      [s[0]] + Insert(x, s[1..], leq)
  }

  /** Inserting into a sorted sequence keeps it sorted. */
  lemma {:induction false} InsertSorted<T(!new)>(x: T, s: seq<T>, leq: (T, T) -> bool)
    requires TotalPreorder(leq) && SortedBy(s, leq)
    ensures SortedBy(Insert(x, s, leq), leq)
  {
    if s != [] && !leq(x, s[0]) {
      var t := s[1..];
      InsertSorted(x, t, leq);
      var r := Insert(x, t, leq);
      forall k | 0 <= k < |r|
        ensures leq(s[0], r[k])
      {
        assert r[k] in multiset(r);
        if r[k] != x {
          assert r[k] in multiset(t);
          var m :| 0 <= m < |t| && t[m] == r[k];
          assert s[m + 1] == r[k];
        }
      }
    }
  }

  /** The sorted arrangement of `s`. */
  function SortBy<T(!new)>(s: seq<T>, leq: (T, T) -> bool): (r: seq<T>)
    requires TotalPreorder(leq)
    ensures multiset(r) == multiset(s)
    ensures SortedBy(r, leq)
  {
    if s == [] then []
    else
      assert s == [s[0]] + s[1..];
      InsertSorted(s[0], SortBy(s[1..], leq), leq);
      Insert(s[0], SortBy(s[1..], leq), leq)
  }

  /** The elements of `s` that the comparator calls equal to `y`, in order. */
  function Equivalents<T>(s: seq<T>, leq: (T, T) -> bool, y: T): seq<T> {
    if s == [] then []
    else (if leq(s[0], y) && leq(y, s[0]) then [s[0]] else []) + Equivalents(s[1..], leq, y)
  }

  lemma {:induction false} InsertEquivalents<T(!new)>(x: T, t: seq<T>, leq: (T, T) -> bool, y: T)
    requires TotalPreorder(leq) && SortedBy(t, leq)
    ensures Equivalents(Insert(x, t, leq), leq, y)
         == (if leq(x, y) && leq(y, x) then [x] else []) + Equivalents(t, leq, y)
  {
    if t == [] || leq(x, t[0]) {
      assert ([x] + t)[1..] == t;
    } else {
      var rest := Insert(x, t[1..], leq);
      var e0 := leq(t[0], y) && leq(y, t[0]);
      var ex := leq(x, y) && leq(y, x);
      assert !(ex && e0);
      calc {
        Equivalents(Insert(x, t, leq), leq, y);
        Equivalents([t[0]] + rest, leq, y);
        { assert ([t[0]] + rest)[1..] == rest; }
        (if e0 then [t[0]] else []) + Equivalents(rest, leq, y);
        { InsertEquivalents(x, t[1..], leq, y); }
        (if e0 then [t[0]] else []) + ((if ex then [x] else []) + Equivalents(t[1..], leq, y));
        (if ex then [x] else []) + ((if e0 then [t[0]] else []) + Equivalents(t[1..], leq, y));
        (if ex then [x] else []) + Equivalents(t, leq, y);
      }
    }
  }

  /** Stability: for every equivalence class the sort keeps input order. */
  lemma {:induction false} SortStable<T(!new)>(s: seq<T>, leq: (T, T) -> bool, y: T)
    requires TotalPreorder(leq)
    ensures Equivalents(SortBy(s, leq), leq, y) == Equivalents(s, leq, y)
  {
    if s != [] {
      SortStable(s[1..], leq, y);
      InsertEquivalents(s[0], SortBy(s[1..], leq), leq, y);
    }
  }

  lemma SortedTail<T>(s: seq<T>, leq: (T, T) -> bool)
    requires s != [] && SortedBy(s, leq)
    ensures SortedBy(s[1..], leq)
  {
  }

  lemma NoTiesTail<T>(s: seq<T>, leq: (T, T) -> bool)
    requires s != [] && NoTies(s, leq)
    ensures NoTies(s[1..], leq)
  {
  }

  lemma SortedHeadsEqual<T(!new)>(a: seq<T>, b: seq<T>, leq: (T, T) -> bool)
    requires TotalPreorder(leq)
    requires SortedBy(a, leq) && SortedBy(b, leq)
    requires multiset(a) == multiset(b) && a != []
    requires NoTies(a, leq)
    ensures b != [] && a[0] == b[0]
    ensures multiset(a[1..]) == multiset(b[1..])
  {
    assert a[0] in multiset(b);
    var j :| 0 <= j < |b| && b[j] == a[0];
    assert b[0] in multiset(a);
    var i :| 0 <= i < |a| && a[i] == b[0];
    assert j == 0 || leq(b[0], b[j]);
    assert i == 0 || leq(a[0], a[i]);
    assert a[0] == a[i];
    MultisetTail(a);
    MultisetTail(b);
  }

  lemma MultisetTail<T>(a: seq<T>)
    requires a != []
    ensures multiset(a[1..]) == multiset(a) - multiset{a[0]}
  {
    assert a == [a[0]] + a[1..];
  }

  /** Without ties a sorted arrangement is unique, so the result does not
      depend on the input order. */
  lemma {:induction false} SortedUnique<T(!new)>(a: seq<T>, b: seq<T>, leq: (T, T) -> bool)
    requires TotalPreorder(leq)
    requires SortedBy(a, leq) && SortedBy(b, leq)
    requires multiset(a) == multiset(b)
    requires NoTies(a, leq)
    ensures a == b
    decreases |a|
  {
    if a == [] {
      assert |b| == |multiset(b)| == 0;
    } else {
      SortedHeadsEqual(a, b, leq);
      SortedTail(a, leq);
      SortedTail(b, leq);
      NoTiesTail(a, leq);
      SortedUnique(a[1..], b[1..], leq);
      assert a == [a[0]] + a[1..] && b == [b[0]] + b[1..];
    }
  }

  /** Sorting depends only on the multiset of its input when there are no ties. */
  lemma SortOrderIndependent<T(!new)>(s: seq<T>, t: seq<T>, leq: (T, T) -> bool)
    requires TotalPreorder(leq)
    requires multiset(s) == multiset(t)
    requires NoTies(s, leq)
    ensures SortBy(s, leq) == SortBy(t, leq)
  {
    var a, b := SortBy(s, leq), SortBy(t, leq);
    forall i, j | 0 <= i < |a| && 0 <= j < |a| && leq(a[i], a[j]) && leq(a[j], a[i])
      ensures a[i] == a[j]
    {
      assert a[i] in multiset(s) && a[j] in multiset(s);
      var i' :| 0 <= i' < |s| && s[i'] == a[i];
      var j' :| 0 <= j' < |s| && s[j'] == a[j];
    }
    SortedUnique(a, b, leq);
  }
}
