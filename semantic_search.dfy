/**
 * The filter panel of the semantic search page: two dates and three lists
 * of selected people, sources and result types. A chip toggles its value in
 * its list, "Clear all" resets everything, and the badge counts the active
 * filters.
 */
module SemanticSearch {
  import opened Text

  datatype Category = People | Sources | Types

  datatype Filters = Filters(dateFrom: String, dateTo: String, people: seq<String>, sources: seq<String>, types: seq<String>)

  function Get(f: Filters, c: Category): seq<String> {
    match c
    case People => f.people
    case Sources => f.sources
    case Types => f.types
  }

  /** The test `item !== value` of the filter that removes `value`. */
  function Other(v: String): String -> bool {
    x => x != v
  }

  /** One list's toggle: every occurrence of a present value is removed; an absent one is appended. */
  function Toggle(xs: seq<String>, v: String): seq<String> {
    if v in xs then Filter(xs, Other(v)) else xs + [v]
  }

  /** `toggleFilter`: only the named list changes. */
  function ToggleFilter(f: Filters, c: Category, v: String): (r: Filters)
    ensures Get(r, c) == Toggle(Get(f, c), v)
    ensures forall d :: d != c ==> Get(r, d) == Get(f, d)
    ensures r.dateFrom == f.dateFrom && r.dateTo == f.dateTo
  {
    match c
    case People => f.(people := Toggle(f.people, v))
    case Sources => f.(sources := Toggle(f.sources, v))
    case Types => f.(types := Toggle(f.types, v))
  }

  /** After a toggle the value is selected exactly when it was not before; other values keep their state. */
  lemma ToggleMembers(xs: seq<String>, v: String, x: String)
    ensures x == v ==> (x in Toggle(xs, v) <==> v !in xs)
    ensures x != v ==> (x in Toggle(xs, v) <==> x in xs)
  {
    FilterMembers(xs, Other(v), x);
  }

  predicate Distinct(xs: seq<String>) {
    forall i, j :: 0 <= i < j < |xs| ==> xs[i] != xs[j]
  }

  /** `v` occurs at most once in `xs`. */
  predicate AtMostOnce(xs: seq<String>, v: String) {
    forall i, j :: 0 <= i < j < |xs| && xs[i] == v ==> xs[j] != v
  }

  /** Filtering out an absent value keeps the list. */
  lemma FilterOutAbsent(xs: seq<String>, v: String)
    requires v !in xs
    ensures Filter(xs, Other(v)) == xs
  {
    forall k | 0 <= k < |xs|
      ensures Other(v)(xs[k])
    {
      assert xs[k] in xs;
    }
    FilterAll(xs, Other(v));
  }

  /** A value present once splits its list around it, and filtering it out joins the two parts. */
  lemma Isolate(xs: seq<String>, v: String) returns (a: seq<String>, b: seq<String>)
    requires v in xs && AtMostOnce(xs, v)
    ensures xs == a + [v] + b && v !in a && v !in b
    ensures Filter(xs, Other(v)) == a + b
  {
    var i :| 0 <= i < |xs| && xs[i] == v;
    a, b := xs[..i], xs[i + 1..];
    assert xs == a + [v] + b;
    forall k | 0 <= k < |a|
      ensures a[k] != v
    {
      assert xs[k] == a[k];
    }
    forall k | 0 <= k < |b|
      ensures b[k] != v
    {
      assert xs[i + 1 + k] == b[k];
    }
    FilterOutAbsent(a, v);
    FilterOutAbsent(b, v);
    FilterAppend(a + [v], b, Other(v));
    FilterAppend(a, [v], Other(v));
    assert Filter([v], Other(v)) == [] by {
      assert [v][1..] == [];
    }
    calc {
      Filter(xs, Other(v));
      Filter(a + [v], Other(v)) + Filter(b, Other(v));
      Filter(a, Other(v)) + Filter([v], Other(v)) + Filter(b, Other(v));
      a + [] + b;
    }
    assert a + [] + b == a + b;
  }

  /** A list that toggles build never holds a value twice. */
  lemma ToggleKeepsDistinct(xs: seq<String>, v: String)
    requires Distinct(xs)
    ensures Distinct(Toggle(xs, v))
  {
    if v in xs {
      var a, b := Isolate(xs, v);
      assert Toggle(xs, v) == a + b;
      forall i, j | 0 <= i < j < |a + b|
        ensures (a + b)[i] != (a + b)[j]
      {
        var i' := if i < |a| then i else i + 1;
        var j' := if j < |a| then j else j + 1;
        assert (a + b)[i] == xs[i'] && (a + b)[j] == xs[j'];
      }
    } else {
      forall i, j | 0 <= i < j < |xs + [v]|
        ensures (xs + [v])[i] != (xs + [v])[j]
      {
        if j == |xs| {
          assert xs[i] in xs;
        }
      }
    }
  }

  /** Toggling a value twice gives back a list that held it at most once, possibly with the value moved to the end. */
  lemma ToggleTwicePermutes(xs: seq<String>, v: String)
    requires AtMostOnce(xs, v)
    ensures multiset(Toggle(Toggle(xs, v), v)) == multiset(xs)
  {
    if v in xs {
      var a, b := Isolate(xs, v);
      assert Toggle(xs, v) == a + b;
      assert v !in a + b;
      assert Toggle(a + b, v) == a + b + [v];
      assert multiset(xs) == multiset(a + b + [v]) by {
        assert xs == a + [v] + b;
      }
    } else {
      ToggleTwiceRestores(xs, v);
    }
  }

  /** Toggling twice restores the list itself when the value was absent or last. */
  lemma ToggleTwiceRestores(xs: seq<String>, v: String)
    requires AtMostOnce(xs, v)
    requires v !in xs || xs[|xs| - 1] == v
    ensures Toggle(Toggle(xs, v), v) == xs
  {
    if v in xs {
      var init := xs[..|xs| - 1];
      assert xs == init + [v];
      forall k | 0 <= k < |init|
        ensures init[k] != v
      {
        assert xs[k] == init[k];
      }
      FilterOutAbsent(init, v);
      FilterAppend(init, [v], Other(v));
      assert Filter([v], Other(v)) == [] by {
        assert [v][1..] == [];
      }
      assert Toggle(xs, v) == init;
    } else {
      FilterAppend(xs, [v], Other(v));
      FilterOutAbsent(xs, v);
    }
  }

  /** `clearFilters`. */
  const Cleared: Filters := Filters("", "", [], [], [])

  predicate NonEmpty(s: String) { s != "" }

  /** `activeFilterCount`: the truthy entries of `[dateFrom || dateTo, ...people, ...sources, ...types]`. */
  function ActiveFilterCount(f: Filters): nat {
    |Filter([Or(f.dateFrom, f.dateTo)] + f.people + f.sources + f.types, NonEmpty)|
  }

  /** The non-empty entries of one list. */
  function Selected(xs: seq<String>): nat {
    |Filter(xs, NonEmpty)|
  }

  /** The count is one for the dates when either is set, plus the non-empty selections of each list. */
  lemma ActiveCountParts(f: Filters)
    ensures ActiveFilterCount(f) ==
      (if f.dateFrom != "" || f.dateTo != "" then 1 else 0) + Selected(f.people) + Selected(f.sources) + Selected(f.types)
  {
    var d := [Or(f.dateFrom, f.dateTo)];
    FilterAppend(d + f.people + f.sources, f.types, NonEmpty);
    FilterAppend(d + f.people, f.sources, NonEmpty);
    FilterAppend(d, f.people, NonEmpty);
  }

  /** Cleared filters count nothing. */
  lemma ClearedCountsNothing()
    ensures ActiveFilterCount(Cleared) == 0
  {
    ActiveCountParts(Cleared);
  }

  /** Toggling a non-empty value that a list holds at most once moves that list's count by one. */
  lemma ToggleSelectedStep(xs: seq<String>, v: String)
    requires v != "" && AtMostOnce(xs, v)
    ensures Selected(Toggle(xs, v)) == if v in xs then Selected(xs) - 1 else Selected(xs) + 1
  {
    if v in xs {
      var a, b := Isolate(xs, v);
      FilterAppend(a, b, NonEmpty);
      FilterAppend(a + [v], b, NonEmpty);
      FilterAppend(a, [v], NonEmpty);
    } else {
      FilterAppend(xs, [v], NonEmpty);
    }
  }

  /** Toggling a non-empty chip moves the badge by exactly one. */
  lemma ToggleCountStep(f: Filters, c: Category, v: String)
    requires v != "" && AtMostOnce(Get(f, c), v)
    ensures ActiveFilterCount(ToggleFilter(f, c, v)) ==
      if v in Get(f, c) then ActiveFilterCount(f) - 1 else ActiveFilterCount(f) + 1
  {
    var g := ToggleFilter(f, c, v);
    ToggleSelectedStep(Get(f, c), v);
    var step := if v in Get(f, c) then -1 else 1;
    assert Selected(Get(g, c)) == Selected(Get(f, c)) + step;
    ActiveCountParts(f);
    ActiveCountParts(g);
  }
}
