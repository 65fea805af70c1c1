/**
 * `TableEnhancer`: a table's rows kept twice — the captured original list,
 * never changed by searching, filtering or sorting, and the displayed copy,
 * rebuilt by the search/filter pipeline and sorted in place by a column.
 * A row is its element's text and the record parsed from its `data-item`
 * attribute; the search box and the filter selects are the values they
 * hold; rendering, event binding and the sort buttons' classes are left out.
 */
module Table {
  import opened Wrappers
  import opened Strings
  import opened Seqs

  // ---------------------------------------------------------------------
  // Records and dotted paths

  /** A value of a parsed record. */
  datatype Value = Undefined | Null | Bool(b: bool) | Num(n: int) | Str(s: string) | Obj(fields: map<string, Value>)

  /** JavaScript truthiness. */
  predicate Truthy(v: Value) {
    match v
    case Undefined => false
    case Null => false
    case Bool(b) => b
    case Num(n) => n != 0
    case Str(s) => s != ""
    case Obj(_) => true
  }

  /** `current[key]`: the field of an object, `undefined` when it has none or is not an object. */
  function Member(v: Value, key: string): Value {
    if v.Obj? && key in v.fields then v.fields[key] else Undefined
  }

  /** One step of the reduce: `current && current[key]`. */
  function Step(v: Value, key: string): Value {
    if Truthy(v) then Member(v, key) else v
  }

  /** The reduce over the keys, from the left. */
  function Walk(v: Value, keys: seq<string>): Value
    decreases |keys|
  {
    if |keys| == 0 then v else Walk(Step(v, keys[0]), keys[1..])
  }

  /** `getNestedValue`: the path split on `.` and walked key by key. */
  function GetNestedValue(obj: Value, path: string): Value {
    Walk(obj, Split(path, '.'))
  }

  /** A falsy value is carried through every remaining key unchanged. */
  lemma {:induction false} WalkFalsy(v: Value, keys: seq<string>)
    requires !Truthy(v)
    ensures Walk(v, keys) == v
    decreases |keys|
  {
    if |keys| > 0 {
      WalkFalsy(v, keys[1..]);
    }
  }

  /** Walking two key lists in a row is walking their concatenation. */
  lemma {:induction false} WalkConcat(v: Value, a: seq<string>, b: seq<string>)
    ensures Walk(v, a + b) == Walk(Walk(v, a), b)
    decreases |a|
  {
    if |a| > 0 {
      assert (a + b)[0] == a[0] && (a + b)[1..] == a[1..] + b;
      WalkConcat(Step(v, a[0]), a[1..], b);
      assert Walk(v, a) == Walk(Step(v, a[0]), a[1..]);
      assert Walk(v, a + b) == Walk(Step(v, a[0]), a[1..] + b);
    } else {
      assert a + b == b;
    }
  }

  /** The walk stops at a falsy intermediate value and returns it. */
  lemma WalkStopsAtFalsy(v: Value, keys: seq<string>, i: nat)
    requires i <= |keys| && !Truthy(Walk(v, keys[..i]))
    ensures Walk(v, keys) == Walk(v, keys[..i])
  {
    assert keys == keys[..i] + keys[i..];
    WalkConcat(v, keys[..i], keys[i..]);
    WalkFalsy(Walk(v, keys[..i]), keys[i..]);
  }

  /** A path without a dot is one key: that field of a truthy value. */
  lemma NestedSingleKey(obj: Value, key: string)
    requires '.' !in key
    ensures GetNestedValue(obj, key) == Step(obj, key)
  {
    SplitNone(key, '.');
    assert [key][1..] == [];
    assert Walk(obj, [key]) == Walk(Step(obj, key), []);
  }

  /** A dotted path looks up its first key, then the rest of the path in what that gives. */
  lemma NestedDotted(obj: Value, head: string, rest: string)
    requires '.' !in head
    ensures GetNestedValue(obj, head + "." + rest) == GetNestedValue(Step(obj, head), rest)
  {
    assert head + "." + rest == head + ['.'] + rest;
    SplitAround(head, '.', rest);
    var keys := [head] + Split(rest, '.');
    assert keys[1..] == Split(rest, '.');
  }

  // ---------------------------------------------------------------------
  // Comparing values

  /** `String(v)`. */
  function ToText(v: Value): string {
    match v
    case Undefined => "undefined"
    case Null => "null"
    case Bool(b) => if b then "true" else "false"
    case Num(n) => IntToString(n)
    case Str(s) => s
    case Obj(_) => "[object Object]"
  }

  /** The stand-in for `localeCompare`: code-point order, a prefix first. */
  function CodePointCompare(a: string, b: string): (r: int)
    ensures -1 <= r <= 1
    decreases |a|
  {
    if |a| == 0 && |b| == 0 then 0
    else if |a| == 0 then -1
    else if |b| == 0 then 1
    else if a[0] < b[0] then -1
    else if a[0] > b[0] then 1
    else CodePointCompare(a[1..], b[1..])
  }

  /** Swapping the operands negates the comparison, and only equal texts compare equal. */
  lemma {:induction false} CodePointCompareLaws(a: string, b: string)
    ensures CodePointCompare(a, b) == -CodePointCompare(b, a)
    ensures CodePointCompare(a, b) == 0 <==> a == b
    decreases |a|
  {
    if |a| > 0 && |b| > 0 && a[0] == b[0] {
      CodePointCompareLaws(a[1..], b[1..]);
      assert a == [a[0]] + a[1..] && b == [b[0]] + b[1..];
    } else if |a| > 0 && |b| > 0 {
      assert a != b by { assert a[0] != b[0]; }
    }
  }

  /** The comparator of `applySort` before the direction: texts by order, numbers by difference, anything else by its `String` text. */
  function CompareValues(a: Value, b: Value): int {
    if a.Str? && b.Str? then CodePointCompare(a.s, b.s)
    else if a.Num? && b.Num? then a.n - b.n
    else CodePointCompare(ToText(a), ToText(b))
  }

  /** Swapping the values negates the comparison. */
  lemma CompareValuesAntisymmetric(a: Value, b: Value)
    ensures CompareValues(a, b) == -CompareValues(b, a)
  {
    if a.Str? && b.Str? {
      CodePointCompareLaws(a.s, b.s);
    } else if !(a.Num? && b.Num?) {
      CodePointCompareLaws(ToText(a), ToText(b));
    }
  }

  /** Two numbers rank by their numeric order, and equal ones tie. */
  lemma NumbersCompareByValue(x: int, y: int)
    ensures CompareValues(Num(x), Num(y)) < 0 <==> x < y
    ensures CompareValues(Num(x), Num(y)) == 0 <==> x == y
  {
  }

  /** A column that mixes numbers and texts ranks 10 before "5", "5" before 9 and 9 before 10: no order fits them all. */
  lemma MixedValuesCompareInCycle()
    ensures CompareValues(Num(10), Str("5")) < 0
    ensures CompareValues(Str("5"), Num(9)) < 0
    ensures CompareValues(Num(9), Num(10)) < 0
  {
    assert NatToString(1) == "1";
    assert NatToString(10) == NatToString(1) + [DigitChar(0)];
    assert ToText(Num(10)) == "10";
    assert ToText(Num(9)) == "9";
  }

  datatype Direction = Asc | Desc

  function Flip(d: Direction): Direction {
    if d == Asc then Desc else Asc
  }

  /** A record row: its element's `textContent` and its parsed `data` record. */
  datatype Row = Row(text: string, data: Value)

  /** The comparator `applySort` hands to `sort` for a field and direction. */
  function CompareRows(field: string, d: Direction): (Row, Row) -> int {
    (a: Row, b: Row) =>
      var c := CompareValues(GetNestedValue(a.data, field), GetNestedValue(b.data, field));
      if d == Desc then -c else c
  }

  /** Descending is the negated ascending comparison, which is ascending with the rows swapped. */
  lemma DescReversesAsc(field: string, a: Row, b: Row)
    ensures CompareRows(field, Desc)(a, b) == -CompareRows(field, Asc)(a, b)
    ensures CompareRows(field, Desc)(a, b) == CompareRows(field, Asc)(b, a)
  {
    CompareValuesAntisymmetric(GetNestedValue(a.data, field), GetNestedValue(b.data, field));
  }

  /** Neither direction ever ranks two rows each before the other. */
  lemma CompareRowsAntisymmetric(field: string, d: Direction)
    ensures Antisymmetric(CompareRows(field, d))
  {
    forall a: Row, b: Row | CompareRows(field, d)(a, b) > 0 ensures CompareRows(field, d)(b, a) < 0 {
      CompareValuesAntisymmetric(GetNestedValue(a.data, field), GetNestedValue(b.data, field));
    }
  }

  // ---------------------------------------------------------------------
  // Sort state

  /** `currentSort`: the field (`null` at first) and the direction. */
  datatype SortState = SortState(field: Option<string>, direction: Direction)

  /** The sort state after a click on a button for `field` (`null` when the button has no field attribute). */
  function NextSort(st: SortState, field: Option<string>): SortState {
    if st.field == field then SortState(field, Flip(st.direction)) else SortState(field, Asc)
  }

  /** `applySort` sorts only when the field is set and not the empty text. */
  predicate SortActive(field: Option<string>) {
    field.Some? && field.value != ""
  }

  /** A click selects the field; the same field flips the direction, another one starts ascending; two clicks on one field come back. */
  lemma NextSortToggles(st: SortState, field: Option<string>)
    ensures NextSort(st, field).field == field
    ensures NextSort(st, field).direction == if st.field == field then Flip(st.direction) else Asc
    ensures NextSort(st, field).direction != st.direction || st.field != field
    ensures NextSort(NextSort(st, field), field) == if st.field == field then st else SortState(field, Desc)
  {
  }

  /** The displayed rows in `applySort`'s order: sorted by the state's comparator when a field is set. */
  function Arranged(rows: seq<Row>, st: SortState): seq<Row> {
    if SortActive(st.field) then SortBy(rows, CompareRows(st.field.value, st.direction)) else rows
  }

  /** Sorting only reorders; without a field it changes nothing, with one the rows are in the comparator's order. */
  lemma ArrangedPermutes(rows: seq<Row>, st: SortState)
    ensures multiset(Arranged(rows, st)) == multiset(rows)
    ensures !SortActive(st.field) ==> Arranged(rows, st) == rows
    ensures SortActive(st.field) ==> Ordered(Arranged(rows, st), CompareRows(st.field.value, st.direction))
  {
    if SortActive(st.field) {
      CompareRowsAntisymmetric(st.field.value, st.direction);
      SortByOrdered(rows, CompareRows(st.field.value, st.direction));
    }
  }

  // ---------------------------------------------------------------------
  // Search and filters

  /** A filter select: its `data-filter-field` path and its current value. */
  datatype FilterSelect = FilterSelect(field: string, value: string)

  /** A select filters unless its value is empty or `all`. */
  predicate FilterActive(sel: FilterSelect) {
    sel.value != "" && sel.value != "all"
  }

  /** The search applies when the table has a search box whose value is not blank. */
  predicate SearchActive(hasSearchInput: bool, query: string) {
    hasSearchInput && !IsBlank(query)
  }

  /** The row's lower-cased text contains the lower-cased query. */
  predicate SearchMatch(query: string, r: Row) {
    Contains(Lower(r.text), Lower(query))
  }

  function SearchTest(query: string): Row -> bool {
    (r: Row) => SearchMatch(query, r)
  }

  /** The value at the select's path is truthy and its lower-cased text contains the lower-cased select value. */
  predicate FieldMatch(sel: FilterSelect, r: Row) {
    var v := GetNestedValue(r.data, sel.field);
    Truthy(v) && Contains(Lower(ToText(v)), Lower(sel.value))
  }

  function FieldTest(sel: FilterSelect): Row -> bool {
    (r: Row) => FieldMatch(sel, r)
  }

  /** The row passes the search, when it applies, and each of the first `n` selects that filters. */
  predicate PassesFirst(hasSearchInput: bool, query: string, filters: seq<FilterSelect>, n: nat, r: Row) {
    (SearchActive(hasSearchInput, query) ==> SearchMatch(query, r))
    && forall j :: 0 <= j < n && j < |filters| && FilterActive(filters[j]) ==> FieldMatch(filters[j], r)
  }

  function PassesTest(hasSearchInput: bool, query: string, filters: seq<FilterSelect>, n: nat): Row -> bool {
    (r: Row) => PassesFirst(hasSearchInput, query, filters, n, r)
  }

  /** The rows the pipeline keeps, in their original order, before sorting. */
  function Visible(rows: seq<Row>, hasSearchInput: bool, query: string, filters: seq<FilterSelect>): seq<Row> {
    Filter(rows, PassesTest(hasSearchInput, query, filters, |filters|))
  }

  /** A row is kept exactly when it matches the search, when there is one, and every filtering select. */
  lemma VisibleMembers(rows: seq<Row>, hasSearchInput: bool, query: string, filters: seq<FilterSelect>, r: Row)
    ensures r in Visible(rows, hasSearchInput, query, filters) <==>
      r in rows && (SearchActive(hasSearchInput, query) ==> SearchMatch(query, r))
      && forall j :: 0 <= j < |filters| && FilterActive(filters[j]) ==> FieldMatch(filters[j], r)
  {
    FilterMembers(rows, PassesTest(hasSearchInput, query, filters, |filters|));
  }

  /** The pipeline keeps the original order: it works on each part of a list separately. */
  lemma VisibleKeepsOrder(a: seq<Row>, b: seq<Row>, hasSearchInput: bool, query: string, filters: seq<FilterSelect>)
    ensures Visible(a + b, hasSearchInput, query, filters)
      == Visible(a, hasSearchInput, query, filters) + Visible(b, hasSearchInput, query, filters)
  {
    FilterConcat(a, b, PassesTest(hasSearchInput, query, filters, |filters|));
  }

  /** A blank search with no filtering select keeps every row, in order. */
  lemma BlankSearchShowsAll(rows: seq<Row>, hasSearchInput: bool, query: string, filters: seq<FilterSelect>)
    requires IsBlank(query)
    requires forall j :: 0 <= j < |filters| ==> !FilterActive(filters[j])
    ensures Visible(rows, hasSearchInput, query, filters) == rows
  {
    FilterAll(rows, PassesTest(hasSearchInput, query, filters, |filters|));
  }

  /** The search step and the first select step of the pipeline, against PassesFirst. */
  lemma SearchStep(rows: seq<Row>, hasSearchInput: bool, query: string, filters: seq<FilterSelect>)
    ensures (if SearchActive(hasSearchInput, query) then Filter(rows, SearchTest(query)) else rows)
      == Filter(rows, PassesTest(hasSearchInput, query, filters, 0))
  {
    var p := PassesTest(hasSearchInput, query, filters, 0);
    if SearchActive(hasSearchInput, query) {
      FilterAgree(rows, SearchTest(query), p);
    } else {
      FilterAll(rows, p);
    }
  }

  /** Passing one more select is passing the earlier ones and that select, when it filters. */
  lemma PassesNext(hasSearchInput: bool, query: string, filters: seq<FilterSelect>, i: nat, r: Row)
    requires i < |filters|
    ensures PassesFirst(hasSearchInput, query, filters, i + 1, r)
      == (PassesFirst(hasSearchInput, query, filters, i, r) && (FilterActive(filters[i]) ==> FieldMatch(filters[i], r)))
  {
  }

  /** One select's step of the pipeline: its filter when it filters, no change otherwise. */
  function Narrow(data: seq<Row>, sel: FilterSelect): seq<Row> {
    if FilterActive(sel) then Filter(data, FieldTest(sel)) else data
  }

  /** Narrowing by select `i` the rows that pass the first `i` selects leaves those that pass the first `i + 1`. */
  lemma FilterSelectStep(rows: seq<Row>, hasSearchInput: bool, query: string, filters: seq<FilterSelect>, i: nat)
    requires i < |filters|
    ensures Narrow(Filter(rows, PassesTest(hasSearchInput, query, filters, i)), filters[i])
      == Filter(rows, PassesTest(hasSearchInput, query, filters, i + 1))
  {
    var p := PassesTest(hasSearchInput, query, filters, i);
    var p' := PassesTest(hasSearchInput, query, filters, i + 1);
    var f := FieldTest(filters[i]);
    if FilterActive(filters[i]) {
      FilterFilter(rows, p, f);
      forall k | 0 <= k < |rows| ensures And(p, f)(rows[k]) == p'(rows[k]) {
        PassesNext(hasSearchInput, query, filters, i, rows[k]);
      }
      FilterAgree(rows, And(p, f), p');
    } else {
      forall k | 0 <= k < |rows| ensures p(rows[k]) == p'(rows[k]) {
        PassesNext(hasSearchInput, query, filters, i, rows[k]);
      }
      FilterAgree(rows, p, p');
    }
  }

  /**
   * The filtering pass of `applyFiltersAndSort`: the search when it
   * applies, then each select's `forEach` round, narrowing a copy of the rows.
   */
  method FilterRows(rows: seq<Row>, hasSearchInput: bool, query: string, filters: seq<FilterSelect>)
    returns (data: seq<Row>)
    ensures data == Visible(rows, hasSearchInput, query, filters)
  {
    data := rows;
    if SearchActive(hasSearchInput, query) {
      data := Filter(data, SearchTest(query));
    }
    SearchStep(rows, hasSearchInput, query, filters);
    var i := 0;
    while i < |filters|
      invariant 0 <= i <= |filters|
      invariant data == Filter(rows, PassesTest(hasSearchInput, query, filters, i))
    {
      FilterSelectStep(rows, hasSearchInput, query, filters, i);
      data := Narrow(data, filters[i]);
      i := i + 1;
    }
  }

  // ---------------------------------------------------------------------
  // The enhancer

  class TableEnhancer {
    /** Whether the table has a search box, and the text it holds. */
    var hasSearchInput: bool
    var searchValue: string
    /** The filter selects, in document order. */
    var filters: seq<FilterSelect>
    var originalData: seq<Row>
    var filteredData: seq<Row>
    var currentSort: SortState

    /**
     * The constructor: the rows of the table body when there is one
     * (none otherwise), displayed in that order, with no sort field.
     */
    constructor(body: Option<seq<Row>>, hasSearchInput: bool, searchValue: string, filters: seq<FilterSelect>)
      ensures this.hasSearchInput == hasSearchInput && this.searchValue == searchValue && this.filters == filters
      ensures originalData == body.GetOr([]) && filteredData == originalData
      ensures currentSort == SortState(None, Asc)
    {
      this.hasSearchInput := hasSearchInput;
      this.searchValue := searchValue;
      this.filters := filters;
      originalData := [];
      filteredData := [];
      currentSort := SortState(None, Asc);
      new;
      CaptureOriginalData(body);
    }

    /** `captureOriginalData`: without a table body nothing changes; otherwise its rows, displayed in order. */
    method CaptureOriginalData(body: Option<seq<Row>>)
      modifies this`originalData, this`filteredData
      ensures body.None? ==> originalData == old(originalData) && filteredData == old(filteredData)
      ensures body.Some? ==> originalData == body.value && filteredData == body.value
    {
      if body.None? {
        return;
      }
      originalData := body.value;
      filteredData := originalData;
    }

    /** `applySort`: the displayed rows sorted in place by the current field and direction, untouched without a field. */
    method ApplySort()
      modifies this`filteredData
      ensures filteredData == Arranged(old(filteredData), currentSort)
    {
      if !SortActive(currentSort.field) {
        return;
      }
      filteredData := SortBy(filteredData, CompareRows(currentSort.field.value, currentSort.direction));
    }

    /**
     * `applyFiltersAndSort`: a copy of the original rows, narrowed by the
     * search and then by each filtering select in turn, then sorted.
     */
    method ApplyFiltersAndSort()
      modifies this`filteredData
      ensures filteredData == Arranged(Visible(originalData, hasSearchInput, searchValue, filters), currentSort)
    {
      filteredData := FilterRows(originalData, hasSearchInput, searchValue, filters);
      ApplySort();
    }

    /**
     * `handleSearch`: the search box now holds `query`; the provisional
     * search result is replaced by the full pipeline's.
     */
    method HandleSearch(query: string)
      modifies this`searchValue, this`filteredData
      ensures searchValue == query
      ensures filteredData == Arranged(Visible(originalData, hasSearchInput, query, filters), currentSort)
    {
      searchValue := query;
      if IsBlank(query) {
        filteredData := originalData;
      } else {
        filteredData := Filter(originalData, SearchTest(query));
      }
      ApplyFiltersAndSort();
    }

    /** `handleSort`: the sort state moves on and the displayed rows are re-sorted, without re-filtering. */
    method HandleSort(field: Option<string>)
      modifies this`currentSort, this`filteredData
      ensures currentSort == NextSort(old(currentSort), field)
      ensures filteredData == Arranged(old(filteredData), currentSort)
    {
      if currentSort.field == field {
        currentSort := currentSort.(direction := Flip(currentSort.direction));
      } else {
        currentSort := SortState(field, Asc);
      }
      ApplySort();
    }

    /** `handleFilter`, with the selects as they now read. */
    method HandleFilter(selects: seq<FilterSelect>)
      modifies this`filters, this`filteredData
      ensures filters == selects
      ensures filteredData == Arranged(Visible(originalData, hasSearchInput, searchValue, selects), currentSort)
    {
      filters := selects;
      ApplyFiltersAndSort();
    }

    /** `refresh`: the rows are captured again (when there is a body) and the pipeline rerun. */
    method Refresh(body: Option<seq<Row>>)
      modifies this`originalData, this`filteredData
      ensures originalData == if body.Some? then body.value else old(originalData)
      ensures filteredData == Arranged(Visible(originalData, hasSearchInput, searchValue, filters), currentSort)
    {
      CaptureOriginalData(body);
      ApplyFiltersAndSort();
    }
  }
}
