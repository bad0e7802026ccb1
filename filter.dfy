/**
 * The filter bridge: `applyFilter` turns the current index into a basic `In` filter on
 * the bound table and column, and `update` reads the index back from the host's
 * json filters.
 */
module Filter {
  import opened Wrappers
  import opened DataViews

  /** `s.indexOf(c)`: the first position of `c` in `s`, or -1 when there is none. */
  function IndexOf(s: string, c: char): (r: int)
    ensures -1 <= r < |s|
    ensures r == -1 <==> c !in s
    ensures r >= 0 ==> s[r] == c && c !in s[..r]
  {
    if |s| == 0 then -1
    else if s[0] == c then 0
    else
      var rest := IndexOf(s[1..], c);
      assert s == [s[0]] + s[1..];
      if rest == -1 then -1
      else
        assert s[..rest + 1] == [s[0]] + s[1..][..rest];
        rest + 1
  }

  /** `s.substr(start, length)`: a negative start counts from the end, a negative length is 0. */
  function Substr(s: string, start: int, length: int): (r: string)
    ensures length <= 0 ==> r == ""
    ensures start == 0 && 0 <= length <= |s| ==> r == s[..length]
  {
    var from := if start < 0 then (if |s| + start < 0 then 0 else |s| + start)
                else if start > |s| then |s| else start;
    var len := if length < 0 then 0 else if length > |s| - from then |s| - from else length;
    s[from..from + len]
  }

  /** The table of `applyFilter`: `queryName.substr(0, queryName.indexOf('.'))`. */
  function TableOf(queryName: string): string {
    Substr(queryName, 0, IndexOf(queryName, '.'))
  }

  /** The table is the part of the qualified name before its first dot, and empty when there is no dot. */
  lemma TableBeforeFirstDot(queryName: string)
    ensures '.' in queryName ==>
              |TableOf(queryName)| < |queryName| && queryName[..|TableOf(queryName)|] == TableOf(queryName) &&
              queryName[|TableOf(queryName)|] == '.' && '.' !in TableOf(queryName)
    ensures '.' !in queryName ==> TableOf(queryName) == ""
  {
  }

  datatype FilterTarget = FilterTarget(table: string, column: string)
  /** `new BasicFilter(target, operator, ...values)`. */
  datatype BasicFilter = BasicFilter(target: FilterTarget, operator: string, values: seq<int>)

  /** The filter `applyFilter` sends for the bound column and the current index. */
  function FilterFor(source: ColumnSource, lastSelected: int): BasicFilter {
    BasicFilter(FilterTarget(TableOf(source.queryName), source.displayName), "In", [lastSelected])
  }

  /**
   * The index `update` takes from the host: the first value of the first json filter
   * when that filter has values, otherwise the last index `n - 1`.  Nothing is clamped.
   */
  function ResyncIndex(n: int, jsonFilters: seq<Option<HostFilter>>): int {
    if |jsonFilters| > 0 && jsonFilters[0].Some? && jsonFilters[0].value.values.Some?
       && |jsonFilters[0].value.values.value| > 0
    then jsonFilters[0].value.values.value[0]
    else n - 1
  }

  /** A filter written by `applyFilter` and handed back by the host restores the index it carried. */
  lemma RestoredFilterRoundTrip(source: ColumnSource, lastSelected: int, n: int)
    ensures ResyncIndex(n, [Some(HostFilter(Some(FilterFor(source, lastSelected).values)))]) == lastSelected
  {
  }

  /** With no json filter, or a falsy one, or one without values, the index defaults to the last one. */
  lemma NoFilterSelectsLast(n: int, jsonFilters: seq<Option<HostFilter>>)
    requires |jsonFilters| == 0 || jsonFilters[0].None? || jsonFilters[0].value.values.None?
    ensures ResyncIndex(n, jsonFilters) == n - 1
  {
  }

  /** The restored value is taken as it is: with five categories a filter value 7 gives index 7. */
  lemma ResyncDoesNotClamp()
    ensures ResyncIndex(5, [Some(HostFilter(Some([7])))]) == 7
  {
  }
}
