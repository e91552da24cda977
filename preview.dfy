/** The data-preview step of the report wizard: a table of sample rows, each
    with an "included" check box, a free-text search over every column, a
    sort on one column in either direction, and pages of ten rows. */
module Preview {
  import opened Wrappers
  import opened Seqs
  import opened Text

  const ItemsPerPage: nat := 10

  /** One sample reading. `value` is the two-decimal string `toFixed` produced. */
  datatype DataRow = DataRow(
    id: string,
    timestamp: string,
    machine: string,
    parameter: string,
    value: string,
    unit: string,
    included: bool)

  /** The sortable columns: every field except `id` and `included`. */
  datatype SortKey = Timestamp | Machine | Parameter | Value | Unit

  datatype Direction = Ascending | Descending

  datatype SortConfig = SortConfig(key: SortKey, direction: Direction)

  function KeyOf(row: DataRow, k: SortKey): string {
    match k
    case Timestamp => row.timestamp
    case Machine => row.machine
    case Parameter => row.parameter
    case Value => row.value
    case Unit => row.unit
  }

  // ---------------------------------------------------------------------------
  // Inclusion flags

  /** `handleIncludeToggle(id)`: flip `included` on the rows whose id is `id`. */
  function ToggleIncluded(rows: seq<DataRow>, id: string): (r: seq<DataRow>)
    ensures |r| == |rows|
    ensures forall i :: 0 <= i < |r| ==> r[i].(included := rows[i].included) == rows[i]
    ensures forall i :: 0 <= i < |r| ==> (r[i].included != rows[i].included <==> rows[i].id == id)
  {
    seq(|rows|, i requires 0 <= i < |rows| =>
      if rows[i].id == id then rows[i].(included := !rows[i].included) else rows[i])
  }

  /** Toggling the same id twice gives back the table it started from. */
  lemma ToggleTwice(rows: seq<DataRow>, id: string)
    ensures ToggleIncluded(ToggleIncluded(rows, id), id) == rows
  {
    var r := ToggleIncluded(ToggleIncluded(rows, id), id);
    forall i | 0 <= i < |rows| ensures r[i] == rows[i] {
      assert r[i].(included := rows[i].included) == rows[i];
    }
  }

  /** `handleSelectAll(checked)`: set `included` to `checked` on every row. */
  function SelectAll(rows: seq<DataRow>, checked: bool): (r: seq<DataRow>)
    ensures |r| == |rows|
    ensures forall i :: 0 <= i < |r| ==> r[i].included == checked
    ensures forall i :: 0 <= i < |r| ==> r[i].(included := rows[i].included) == rows[i]
  {
    seq(|rows|, i requires 0 <= i < |rows| => rows[i].(included := checked))
  }

  /** The header check box: checked when every row of the whole table, not
      only the rows the search shows, is included. */
  predicate AllIncluded(rows: seq<DataRow>) {
    forall i :: 0 <= i < |rows| ==> rows[i].included
  }

  /** After "select all" the header is checked, and after clearing all it is
      unchecked unless the table is empty. */
  lemma SelectAllHeader(rows: seq<DataRow>, checked: bool)
    ensures AllIncluded(SelectAll(rows, checked)) <==> checked || rows == []
  {
    if !checked && rows != [] {
      assert !SelectAll(rows, checked)[0].included;
    }
  }

  /** Unticking any row whose id occurs unchecks the header. */
  lemma ToggleUnchecksHeader(rows: seq<DataRow>, k: nat)
    requires AllIncluded(rows) && k < |rows|
    ensures !AllIncluded(ToggleIncluded(rows, rows[k].id))
  {
    assert !ToggleIncluded(rows, rows[k].id)[k].included;
  }

  // ---------------------------------------------------------------------------
  // Search

  function BoolString(b: bool): string {
    if b then "true" else "false"
  }

  /** `Object.values(row)` rendered with `String(...)`, in declaration order. */
  function FieldStrings(row: DataRow): seq<string> {
    [row.id, row.timestamp, row.machine, row.parameter, row.value, row.unit, BoolString(row.included)]
  }

  /** Some field, lower-cased, contains the lower-cased term. */
  predicate RowMatches(row: DataRow, term: string)
    ensures var t := Lower(term);
      RowMatches(row, term) <==>
        Contains(Lower(row.id), t) || Contains(Lower(row.timestamp), t) || Contains(Lower(row.machine), t)
        || Contains(Lower(row.parameter), t) || Contains(Lower(row.value), t) || Contains(Lower(row.unit), t)
        || Contains(Lower(if row.included then "true" else "false"), t)
  {
    exists f :: f in FieldStrings(row) && Contains(Lower(f), Lower(term))
  }

  /** The rows the search keeps: all of them for an empty term, otherwise the
      matching ones in their table order. */
  function SearchFilter(rows: seq<DataRow>, term: string): (r: seq<DataRow>)
    ensures term == "" ==> r == rows
    ensures term != "" ==> forall i :: 0 <= i < |r| ==> RowMatches(r[i], term)
    ensures forall i :: 0 <= i < |rows| && RowMatches(rows[i], term) ==> rows[i] in r
    ensures forall i :: 0 <= i < |r| ==> r[i] in rows
    ensures |r| <= |rows|
  {
    if term == "" then rows else Filter(rows, row => RowMatches(row, term))
  }

  lemma SearchFilterIsSubsequence(rows: seq<DataRow>, term: string)
    ensures Subsequence(SearchFilter(rows, term), rows)
  {
    if term == "" {
      FilterAll(rows, row => true);
      FilterIsSubsequence(rows, row => true);
    } else {
      FilterIsSubsequence(rows, row => RowMatches(row, term));
    }
  }

  /** Every row matches the empty term (the `id` field contains ""), so the
      `if (searchTerm)` guard only skips work: filtering with "" would keep
      every row too. */
  lemma EmptyTermMatchesEveryRow(rows: seq<DataRow>)
    ensures Filter(rows, row => RowMatches(row, "")) == rows
  {
    forall i | 0 <= i < |rows| ensures RowMatches(rows[i], "") {
      ContainsEmpty(Lower(rows[i].id));
      assert Lower(rows[i].id) in [Lower(rows[i].id)];
      assert rows[i].id in FieldStrings(rows[i]);
    }
    FilterAll(rows, row => RowMatches(row, ""));
  }

  /** The search looks at the stringified flag too: "false" finds exactly
      the excluded rows when no other field mentions it. */
  lemma SearchSeesIncludedFlag(row: DataRow)
    requires !row.included
    ensures RowMatches(row, "FALSE")
  {
    assert Lower("FALSE") == "false";
    assert BoolString(row.included) in FieldStrings(row);
    assert Lower(BoolString(row.included)) == "false";
  }

  // ---------------------------------------------------------------------------
  // Sorting

  /** The comparator handed to `Array.prototype.sort`: -1, 0 or 1 by the
      string order of the keys, the sign flipped when descending. */
  function Compare(a: DataRow, b: DataRow, c: SortConfig): (r: int)
    ensures r == -1 || r == 0 || r == 1
    ensures r < 0 <==> if c.direction == Ascending then Less(KeyOf(a, c.key), KeyOf(b, c.key))
                       else Less(KeyOf(b, c.key), KeyOf(a, c.key))
    ensures r == 0 <==> !Less(KeyOf(a, c.key), KeyOf(b, c.key)) && !Less(KeyOf(b, c.key), KeyOf(a, c.key))
  {
    var ka, kb := KeyOf(a, c.key), KeyOf(b, c.key);
    LessAsymmetric(ka, kb);
    if Less(ka, kb) then (if c.direction == Ascending then -1 else 1)
    else if Less(kb, ka) then (if c.direction == Ascending then 1 else -1)
    else 0
  }

  /** The comparator is consistent, as `sort` needs: swapping the arguments
      negates it, it is 0 exactly on equal keys, and "not after" is transitive. */
  lemma CompareConsistent(a: DataRow, b: DataRow, d: DataRow, c: SortConfig)
    ensures Compare(a, b, c) == -Compare(b, a, c)
    ensures Compare(a, b, c) == 0 <==> KeyOf(a, c.key) == KeyOf(b, c.key)
    ensures Compare(a, b, c) <= 0 && Compare(b, d, c) <= 0 ==> Compare(a, d, c) <= 0
  {
    var ka, kb, kd := KeyOf(a, c.key), KeyOf(b, c.key), KeyOf(d, c.key);
    LessAsymmetric(ka, kb);
    LessTotal(ka, kb);
    LessIrreflexive(ka);
    LessTotal(ka, kd);
    LessTotal(kb, kd);
    LessIrreflexive(kd);
    if Less(ka, kb) && Less(kb, kd) { LessTransitive(ka, kb, kd); }
    if Less(kd, kb) && Less(kb, ka) { LessTransitive(kd, kb, ka); }
    LessAsymmetric(ka, kd);
  }

  /** Ordered under the comparator: no row comes after a later one. */
  predicate Sorted(s: seq<DataRow>, c: SortConfig) {
    forall i, j :: 0 <= i < j < |s| ==> Compare(s[i], s[j], c) <= 0
  }

  /** Sorted ascending means non-decreasing keys; descending, non-increasing. */
  lemma SortedMeansOrderedKeys(s: seq<DataRow>, c: SortConfig, i: nat, j: nat)
    requires Sorted(s, c) && i < j < |s|
    ensures c.direction == Ascending ==> !Less(KeyOf(s[j], c.key), KeyOf(s[i], c.key))
    ensures c.direction == Descending ==> !Less(KeyOf(s[i], c.key), KeyOf(s[j], c.key))
  {
    LessAsymmetric(KeyOf(s[i], c.key), KeyOf(s[j], c.key));
  }

  /** Insert `x` into the sorted `t` after every row that does not come after
      it: the step a stable insertion sort takes for each new row. */
  function InsertLast(t: seq<DataRow>, x: DataRow, c: SortConfig): (r: seq<DataRow>)
    ensures |r| == |t| + 1
    decreases |t|
  {
    if t == [] || Compare(t[|t| - 1], x, c) <= 0 then t + [x]
    else InsertLast(t[..|t| - 1], x, c) + [t[|t| - 1]]
  }

  /** The stable sort of `s` by the comparator. `Array.prototype.sort` is
      stable, and a stable sort under a consistent comparator has only one
      possible result, which this insertion sort computes. */
  function SortSpec(s: seq<DataRow>, c: SortConfig): (r: seq<DataRow>)
    ensures |r| == |s|
    decreases |s|
  {
    if s == [] then [] else InsertLast(SortSpec(s[..|s| - 1], c), s[|s| - 1], c)
  }

  lemma {:induction false} InsertLastPermutes(t: seq<DataRow>, x: DataRow, c: SortConfig)
    ensures multiset(InsertLast(t, x, c)) == multiset(t) + multiset{x}
  {
    if t != [] && Compare(t[|t| - 1], x, c) > 0 {
      InsertLastPermutes(t[..|t| - 1], x, c);
      assert t == t[..|t| - 1] + [t[|t| - 1]];
    }
  }

  /** Sorting only reorders: the result is a permutation of the input. */
  lemma {:induction false} SortSpecPermutes(s: seq<DataRow>, c: SortConfig)
    ensures multiset(SortSpec(s, c)) == multiset(s)
  {
    if s != [] {
      var u, x := s[..|s| - 1], s[|s| - 1];
      calc {
        multiset(SortSpec(s, c));
        multiset(InsertLast(SortSpec(u, c), x, c));
        { InsertLastPermutes(SortSpec(u, c), x, c); }
        multiset(SortSpec(u, c)) + multiset{x};
        { SortSpecPermutes(u, c); }
        multiset(u) + multiset{x};
        { assert s == u + [x]; }
        multiset(s);
      }
    }
  }

  lemma {:induction false} InsertLastSorted(t: seq<DataRow>, x: DataRow, c: SortConfig)
    requires Sorted(t, c)
    ensures Sorted(InsertLast(t, x, c), c)
  {
    if t == [] || Compare(t[|t| - 1], x, c) <= 0 {
      forall i | 0 <= i < |t| ensures Compare(t[i], x, c) <= 0 {
        CompareConsistent(t[i], t[|t| - 1], x, c);
      }
      AppendSorted(t, x, c);
    } else {
      var u, y := t[..|t| - 1], t[|t| - 1];
      var v := InsertLast(u, x, c);
      InsertLastSorted(u, x, c);
      InsertLastPermutes(u, x, c);
      CompareConsistent(y, x, x, c);
      forall i | 0 <= i < |v| ensures Compare(v[i], y, c) <= 0 {
        assert v[i] in multiset(v);
        if v[i] != x {
          var k :| 0 <= k < |u| && u[k] == v[i];
          assert Compare(t[k], t[|t| - 1], c) <= 0;
        }
      }
      AppendSorted(v, y, c);
    }
  }

  /** A row that no row of a sorted sequence comes after can go at its end. */
  lemma AppendSorted(v: seq<DataRow>, y: DataRow, c: SortConfig)
    requires Sorted(v, c)
    requires forall i :: 0 <= i < |v| ==> Compare(v[i], y, c) <= 0
    ensures Sorted(v + [y], c)
  {
    var r := v + [y];
    forall i, j | 0 <= i < j < |r| ensures Compare(r[i], r[j], c) <= 0 {
      assert r[i] == v[i];
    }
  }

  /** The sorted rows are ordered by the key in the requested direction. */
  lemma {:induction false} SortSpecSorted(s: seq<DataRow>, c: SortConfig)
    ensures Sorted(SortSpec(s, c), c)
  {
    if s != [] {
      SortSpecSorted(s[..|s| - 1], c);
      InsertLastSorted(SortSpec(s[..|s| - 1], c), s[|s| - 1], c);
    }
  }

  /** Rows that are already in order are left as they are. */
  lemma {:induction false} SortSpecOfSorted(s: seq<DataRow>, c: SortConfig)
    requires Sorted(s, c)
    ensures SortSpec(s, c) == s
  {
    if s != [] {
      var u, x := s[..|s| - 1], s[|s| - 1];
      assert Sorted(u, c);
      SortSpecOfSorted(u, c);
      assert s == u + [x];
      if u != [] {
        assert u[|u| - 1] == s[|s| - 2] && Compare(s[|s| - 2], x, c) <= 0;
      }
      assert InsertLast(u, x, c) == u + [x];
    }
  }

  /** Sorting twice with the same configuration is sorting once. */
  lemma SortIdempotent(s: seq<DataRow>, c: SortConfig)
    ensures SortSpec(SortSpec(s, c), c) == SortSpec(s, c)
  {
    SortSpecSorted(s, c);
    SortSpecOfSorted(SortSpec(s, c), c);
  }

  /** The rows whose sort key equals `v`, in order. */
  function WithKey(s: seq<DataRow>, k: SortKey, v: string): seq<DataRow> {
    Filter(s, KeyIs(k, v))
  }

  function KeyIs(k: SortKey, v: string): DataRow -> bool {
    row => KeyOf(row, k) == v
  }

  lemma {:induction false} InsertLastStable(t: seq<DataRow>, x: DataRow, c: SortConfig, v: string)
    ensures WithKey(InsertLast(t, x, c), c.key, v) == WithKey(t + [x], c.key, v)
  {
    var p := KeyIs(c.key, v);
    if t != [] && Compare(t[|t| - 1], x, c) > 0 {
      var u, y := t[..|t| - 1], t[|t| - 1];
      assert t == u + [y];
      assert Filter([x], p) + Filter([y], p) == Filter([y], p) + Filter([x], p) by {
        CompareConsistent(y, x, x, c);
        assert KeyOf(x, c.key) != KeyOf(y, c.key);
      }
      calc {
        WithKey(InsertLast(t, x, c), c.key, v);
        Filter(InsertLast(u, x, c) + [y], p);
        { FilterAppend(InsertLast(u, x, c), [y], p); }
        WithKey(InsertLast(u, x, c), c.key, v) + Filter([y], p);
        { InsertLastStable(u, x, c, v); }
        Filter(u + [x], p) + Filter([y], p);
        { FilterAppend(u, [x], p); }
        Filter(u, p) + Filter([x], p) + Filter([y], p);
        Filter(u, p) + (Filter([x], p) + Filter([y], p));
        Filter(u, p) + (Filter([y], p) + Filter([x], p));
        Filter(u, p) + Filter([y], p) + Filter([x], p);
        { FilterAppend(u, [y], p); FilterAppend(u + [y], [x], p); }
        Filter(t + [x], p);
      }
    }
  }

  /** The sort is stable: rows with equal keys keep their relative order. */
  lemma {:induction false} SortSpecStable(s: seq<DataRow>, c: SortConfig, v: string)
    ensures WithKey(SortSpec(s, c), c.key, v) == WithKey(s, c.key, v)
  {
    if s != [] {
      var u, x := s[..|s| - 1], s[|s| - 1];
      var w := SortSpec(u, c);
      var p := KeyIs(c.key, v);
      calc {
        WithKey(SortSpec(s, c), c.key, v);
        WithKey(InsertLast(w, x, c), c.key, v);
        { InsertLastStable(w, x, c, v); }
        WithKey(w + [x], c.key, v);
        { FilterAppend(w, [x], p); }
        WithKey(w, c.key, v) + Filter([x], p);
        { SortSpecStable(u, c, v); }
        WithKey(u, c.key, v) + Filter([x], p);
        { FilterAppend(u, [x], p); }
        WithKey(u + [x], c.key, v);
        { assert s == u + [x]; }
        WithKey(s, c.key, v);
      }
    }
  }

  /** Where `InsertLast` puts `x`: after the prefix `t[..j]` whose last row
      does not come after `x`, and before the suffix whose rows all do. */
  lemma {:induction false} InsertLastSplit(t: seq<DataRow>, j: nat, x: DataRow, c: SortConfig)
    requires j <= |t| && (j == 0 || Compare(t[j - 1], x, c) <= 0)
    requires forall k :: j <= k < |t| ==> Compare(t[k], x, c) > 0
    ensures InsertLast(t, x, c) == t[..j] + [x] + t[j..]
    decreases |t|
  {
    if j < |t| {
      var u := t[..|t| - 1];
      InsertLastSplit(u, j, x, c);
      assert u[..j] == t[..j] && u[j..] + [t[|t| - 1]] == t[j..];
    } else {
      assert t[..j] == t;
    }
  }

  /** One step of the insertion sort: shift the rows of the sorted prefix
      `a[..i]` that come after `a[i]` one place right and drop `a[i]` into the gap. */
  method InsertIntoPrefix(a: array<DataRow>, i: nat, c: SortConfig)
    requires i < a.Length
    modifies a
    ensures a[..i + 1] == InsertLast(old(a[..i]), old(a[i]), c)
    ensures a[i + 1..] == old(a[i + 1..])
  {
    ghost var t := a[..i];
    var x := a[i];
    var j := i;
    while j > 0 && Compare(a[j - 1], x, c) > 0
      invariant 0 <= j <= i
      invariant forall k :: 0 <= k < j ==> a[k] == t[k]
      invariant forall k :: j < k <= i ==> a[k] == t[k - 1]
      invariant forall k :: j <= k < i ==> Compare(t[k], x, c) > 0
      invariant a[i + 1..] == old(a[i + 1..])
    {
      a[j] := a[j - 1];
      j := j - 1;
    }
    a[j] := x;
    InsertLastSplit(t, j, x, c);
    ShiftedInsert(a[..i + 1], t, j, x);
  }

  /** A sequence that agrees with `t` before `j`, holds `x` at `j` and `t`
      shifted one place right after it is `t` with `x` inserted at `j`. */
  lemma ShiftedInsert<T>(s: seq<T>, t: seq<T>, j: nat, x: T)
    requires j <= |t| && |s| == |t| + 1
    requires forall k :: 0 <= k < j ==> s[k] == t[k]
    requires s[j] == x
    requires forall k :: j < k < |s| ==> s[k] == t[k - 1]
    ensures s == t[..j] + [x] + t[j..]
  {
    forall k | 0 <= k < |s| ensures s[k] == (t[..j] + [x] + t[j..])[k] {
      if k > j { assert (t[..j] + [x] + t[j..])[k] == t[k - 1]; }
    }
  }

  /** `searchableData.sort(...)`: the stable insertion sort, run in place. */
  method SortRows(a: array<DataRow>, c: SortConfig)
    modifies a
    ensures a[..] == SortSpec(old(a[..]), c)
  {
    ghost var s := a[..];
    var i := 0;
    while i < a.Length
      invariant 0 <= i <= a.Length
      invariant a[..i] == SortSpec(s[..i], c)
      invariant a[i..] == s[i..]
    {
      InsertIntoPrefix(a, i, c);
      assert s[..i + 1] == s[..i] + [s[i]];
      i := i + 1;
    }
    assert a[..] == a[..a.Length] && s == s[..a.Length];
  }

  // ---------------------------------------------------------------------------
  // Sort requests

  /** `requestSort(key)`: descending only when the table is already sorted
      ascending on the same key; ascending in every other case. */
  function NextSortConfig(current: Option<SortConfig>, k: SortKey): (r: SortConfig)
    ensures r.key == k
    ensures r.direction == Descending <==> current == Some(SortConfig(k, Ascending))
  {
    if current == Some(SortConfig(k, Ascending)) then SortConfig(k, Descending) else SortConfig(k, Ascending)
  }

  /** Clicking one header repeatedly alternates ascending and descending. */
  lemma SortRequestsAlternate(k: SortKey, current: Option<SortConfig>)
    ensures NextSortConfig(Some(NextSortConfig(Some(NextSortConfig(current, k)), k)), k)
         == NextSortConfig(current, k)
  {
  }

  /** The rows `filteredData` lists: the search result, then sorted if a sort
      was requested. */
  function FilteredRows(rows: seq<DataRow>, term: string, sort: Option<SortConfig>): (r: seq<DataRow>)
    ensures multiset(r) == multiset(SearchFilter(rows, term))
    ensures sort.Some? ==> Sorted(r, sort.value)
    ensures sort.None? ==> r == SearchFilter(rows, term)
  {
    var f := SearchFilter(rows, term);
    if sort.Some? then
      SortSpecPermutes(f, sort.value);
      SortSpecSorted(f, sort.value);
      SortSpec(f, sort.value)
    else f
  }

  /** The listed rows are a reordering of the search result, ordered by the
      requested key; recomputing them from an already sorted table changes nothing. */
  lemma FilteredRowsProperties(rows: seq<DataRow>, term: string, c: SortConfig)
    ensures multiset(FilteredRows(rows, term, Some(c))) == multiset(SearchFilter(rows, term))
    ensures Sorted(FilteredRows(rows, term, Some(c)), c)
    ensures FilteredRows(FilteredRows(rows, "", Some(c)), "", Some(c)) == FilteredRows(rows, "", Some(c))
  {
    SortSpecPermutes(SearchFilter(rows, term), c);
    SortSpecSorted(SearchFilter(rows, term), c);
    SortIdempotent(rows, c);
  }

  // ---------------------------------------------------------------------------
  // Pagination

  /** `Math.ceil(n / itemsPerPage)`. */
  function TotalPages(n: nat): (r: nat)
    ensures r * ItemsPerPage >= n
    ensures r > 0 ==> (r - 1) * ItemsPerPage < n
  {
    (n + ItemsPerPage - 1) / ItemsPerPage
  }

  /** `rows.slice((page - 1) * 10, page * 10)`: the rows at indices
      (page-1)*10 up to page*10-1, as many of them as exist. */
  function PageSlice<T>(rows: seq<T>, page: nat): (r: seq<T>)
    requires page >= 1
    ensures |r| <= ItemsPerPage
    ensures forall i :: 0 <= i < |r| ==> (page - 1) * ItemsPerPage + i < |rows| && r[i] == rows[(page - 1) * ItemsPerPage + i]
    ensures r != [] <==> page <= TotalPages(|rows|)
    ensures page < TotalPages(|rows|) ==> |r| == ItemsPerPage
  {
    var lo := if (page - 1) * ItemsPerPage < |rows| then (page - 1) * ItemsPerPage else |rows|;
    var hi := if page * ItemsPerPage < |rows| then page * ItemsPerPage else |rows|;
    rows[lo..hi]
  }

  /** The first `k` pages laid end to end. */
  function Pages<T>(rows: seq<T>, k: nat): seq<T> {
    if k == 0 then [] else Pages(rows, k - 1) + PageSlice(rows, k)
  }

  lemma {:induction false} PagesPrefix<T>(rows: seq<T>, k: nat)
    ensures Pages(rows, k) == rows[..if k * ItemsPerPage < |rows| then k * ItemsPerPage else |rows|]
  {
    if k > 0 {
      PagesPrefix(rows, k - 1);
    }
  }

  /** The pages together list every row once, in order. */
  lemma PagesCoverRows<T>(rows: seq<T>)
    ensures Pages(rows, TotalPages(|rows|)) == rows
  {
    PagesPrefix(rows, TotalPages(|rows|));
  }

  /** "Previous": `Math.max(1, page - 1)`. */
  function PreviousPage(page: nat): (r: nat)
    ensures r >= 1
    ensures page > 1 ==> r == page - 1
    ensures page <= 1 ==> r == 1
  {
    if page > 1 then page - 1 else 1
  }

  /** "Next": `Math.min(totalPages, page + 1)`. */
  function NextPage(page: nat, totalPages: nat): (r: nat)
    ensures r <= totalPages
    ensures page < totalPages ==> r == page + 1
    ensures page >= totalPages ==> r == totalPages
  {
    if page + 1 < totalPages then page + 1 else totalPages
  }

  /** From a page in range, both buttons keep the page in range. */
  lemma PageButtonsStayInRange(page: nat, totalPages: nat)
    requires 1 <= page <= totalPages
    ensures 1 <= PreviousPage(page) <= totalPages
    ensures 1 <= NextPage(page, totalPages) <= totalPages
  {
  }

  // ---------------------------------------------------------------------------
  // The component's state

  /** A fresh array holding `rows`: what `map` and `filter` hand back. */
  method NewRowArray(rows: seq<DataRow>) returns (a: array<DataRow>)
    ensures fresh(a) && a[..] == rows
  {
    a := new DataRow[|rows|](i requires 0 <= i < |rows| => rows[i]);
  }

  /** The state of the preview table: the rows (a React state array), the
      search term, the sort request and the current page. */
  class PreviewTable {
    var data: array<DataRow>
    var searchTerm: string
    var sortConfig: Option<SortConfig>
    var currentPage: nat

    ghost predicate Valid()
      reads this
    {
      currentPage >= 1
    }

    /** The initial state over the given sample rows. */
    constructor (rows: seq<DataRow>)
      ensures Valid() && fresh(data)
      ensures data[..] == rows && searchTerm == "" && sortConfig == None && currentPage == 1
    {
      var a := NewRowArray(rows);
      data := a;
      searchTerm := "";
      sortConfig := None;
      currentPage := 1;
    }

    /** A row's check box: the state gets a new array with the row flipped. */
    method IncludeToggle(id: string)
      requires Valid()
      modifies this
      ensures Valid() && fresh(data)
      ensures data[..] == ToggleIncluded(old(data[..]), id)
      ensures searchTerm == old(searchTerm) && sortConfig == old(sortConfig) && currentPage == old(currentPage)
    {
      data := NewRowArray(ToggleIncluded(data[..], id));
    }

    /** The header check box: a new array with every flag set to `checked`. */
    method SelectAllRows(checked: bool)
      requires Valid()
      modifies this
      ensures Valid() && fresh(data)
      ensures data[..] == SelectAll(old(data[..]), checked)
      ensures searchTerm == old(searchTerm) && sortConfig == old(sortConfig) && currentPage == old(currentPage)
    {
      data := NewRowArray(SelectAll(data[..], checked));
    }

    /** Whether the header check box shows as checked. */
    function HeaderChecked(): (r: bool)
      reads this, data
      ensures r <==> forall i :: 0 <= i < data.Length ==> data[i].included
      ensures data.Length == 0 ==> r
    {
      AllIncluded(data[..])
    }

    /** Typing in the search box stores the term and goes back to page 1. */
    method SetSearchTerm(term: string)
      requires Valid()
      modifies this
      ensures Valid() && currentPage == 1 && searchTerm == term
      ensures data == old(data) && sortConfig == old(sortConfig)
    {
      searchTerm := term;
      currentPage := 1;
    }

    /** Clicking a column header. */
    method RequestSort(k: SortKey)
      requires Valid()
      modifies this
      ensures Valid() && sortConfig == Some(NextSortConfig(old(sortConfig), k))
      ensures data == old(data) && searchTerm == old(searchTerm) && currentPage == old(currentPage)
    {
      sortConfig := Some(NextSortConfig(sortConfig, k));
    }

    /** `filteredData`. With an empty term the array sorted is the state
        array itself, so the sort reorders the table's own rows; with a
        term, the filter made a new array and the state is left alone. */
    method FilteredData() returns (view: array<DataRow>)
      modifies data
      ensures view[..] == FilteredRows(old(data[..]), searchTerm, sortConfig)
      ensures searchTerm == "" ==> view == data
      ensures searchTerm != "" ==> fresh(view) && data[..] == old(data[..])
    {
      if searchTerm == "" {
        view := data;
      } else {
        view := NewRowArray(SearchFilter(data[..], searchTerm));
      }
      if sortConfig.Some? {
        SortRows(view, sortConfig.value);
      }
    }

    /** The rows shown on the current page. */
    method PaginatedData() returns (page: seq<DataRow>)
      requires Valid()
      modifies data
      ensures page == PageSlice(FilteredRows(old(data[..]), searchTerm, sortConfig), currentPage)
      ensures |page| <= ItemsPerPage
    {
      var view := FilteredData();
      page := PageSlice(view[..], currentPage);
    }

    /** `totalPages` for the rows the search currently keeps. */
    function PageCount(): (r: nat)
      reads this, data
      ensures r * ItemsPerPage >= |SearchFilter(data[..], searchTerm)|
      ensures r > 0 ==> (r - 1) * ItemsPerPage < |SearchFilter(data[..], searchTerm)|
      ensures r == 0 <==> SearchFilter(data[..], searchTerm) == []
    {
      TotalPages(|SearchFilter(data[..], searchTerm)|)
    }

    /** The "Previous" button. */
    method GoToPreviousPage()
      requires Valid()
      modifies this
      ensures Valid() && currentPage == PreviousPage(old(currentPage))
      ensures data == old(data) && searchTerm == old(searchTerm) && sortConfig == old(sortConfig)
    {
      currentPage := PreviousPage(currentPage);
    }

    /** The "Next" button, which is only rendered when there is more than one page. */
    method GoToNextPage()
      requires Valid() && PageCount() > 1
      modifies this
      ensures Valid() && currentPage == NextPage(old(currentPage), old(PageCount()))
      ensures currentPage <= PageCount()
      ensures data == old(data) && searchTerm == old(searchTerm) && sortConfig == old(sortConfig)
    {
      currentPage := NextPage(currentPage, PageCount());
    }
  }
}
