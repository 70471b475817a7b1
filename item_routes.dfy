// The two item listing routes (tags with elements, and the budget table data): the
// whitelisted ORDER BY clause, the page offset, the escaped search filter, and the
// grouping of the fetched rows into categories with the empty-result check.

module ItemRoutes {
  import opened Strings
  import opened Grouped
  import opened JsNumbers
  import SqlDump

  // ---------------------------------------------------------------------------
  // ORDER BY

  const DefaultOrder: string := "ORDER BY i.id ASC"

  /** The sortable columns of the tags-with-elements route. */
  const TagsColumns: seq<string> := ["id", "cod", "item_name", "unid", "category", "type", "origin_table"]

  /** The sortable columns of the table-data route. */
  const TableDataColumns: seq<string> := ["id", "cod", "name", "unit", "category", "type", "origin_table"]

  /** `(dir || "").trim().toUpperCase() === "DESC" ? "DESC" : "ASC"`. */
  function Direction(dir: string): (r: string)
    ensures r == "DESC" || r == "ASC"
  {
    if ToUpper(Trim(dir)) == "DESC" then "DESC" else "ASC"
  }

  /** `getSortClause`, for a route's whitelist `columns`. The parameter is split on `:`
      and only its first two pieces are read. */
  function SortClause(sortParam: Option<string>, columns: seq<string>): string
  {
    if sortParam.None? || sortParam.value == "" then DefaultOrder
    else
      var pieces := Split(sortParam.value, ':');
      var field := Trim(pieces[0]);
      var dir := if |pieces| > 1 then pieces[1] else "";
      if field !in columns then DefaultOrder
      else "ORDER BY i." + field + " " + Direction(dir)
  }

  /** The clause always names a whitelisted column (`id` for the default), in ascending
      or descending order; without a parameter it is the default. */
  lemma SortClauseWhitelisted(sortParam: Option<string>, columns: seq<string>)
    requires "id" in columns
    ensures exists c, d :: c in columns && (d == "ASC" || d == "DESC") &&
                           SortClause(sortParam, columns) == "ORDER BY i." + c + " " + d
    ensures sortParam.None? || sortParam == Some("") ==> SortClause(sortParam, columns) == DefaultOrder
  {
    var r := SortClause(sortParam, columns);
    if r == DefaultOrder {
      assert DefaultOrder == "ORDER BY i." + "id" + " " + "ASC";
      ClauseWitness(r, columns, "id", "ASC");
    } else {
      var pieces := Split(sortParam.value, ':');
      var field := Trim(pieces[0]);
      var dir := if |pieces| > 1 then pieces[1] else "";
      ClauseWitness(r, columns, field, Direction(dir));
    }
  }

  lemma ClauseWitness(clause: string, columns: seq<string>, c: string, d: string)
    requires c in columns && (d == "ASC" || d == "DESC") && clause == "ORDER BY i." + c + " " + d
    ensures exists c', d' :: c' in columns && (d' == "ASC" || d' == "DESC") && clause == "ORDER BY i." + c' + " " + d'
  {
  }

  /** `field:dir` for a whitelisted field sorts on that field, descending exactly when
      `dir` reads `DESC` once trimmed and upper-cased. */
  lemma SortClauseOfParam(field: string, dir: string, columns: seq<string>)
    requires field in columns && ':' !in field && ':' !in dir && Trim(field) == field
    ensures SortClause(Some(field + ":" + dir), columns) ==
            "ORDER BY i." + field + " " + (if ToUpper(Trim(dir)) == "DESC" then "DESC" else "ASC")
  {
    SplitPair(field, dir);
  }

  lemma SplitPair(field: string, dir: string)
    requires ':' !in field && ':' !in dir
    ensures Split(field + ":" + dir, ':') == [field, dir]
  {
    SplitAtFirst(field, ':', dir);
    SplitWithout(dir, ':');
  }

  /** A field outside the whitelist falls back to the default, whatever the direction. */
  lemma SortClauseRejects(field: string, dir: string, columns: seq<string>)
    requires ':' !in field && Trim(field) !in columns
    ensures SortClause(Some(field + ":" + dir), columns) == DefaultOrder
  {
    assert Split(field + ":" + dir, ':')[0] == field by {
      SplitAtFirst(field, ':', dir);
    }
  }

  // ---------------------------------------------------------------------------
  // Paging and search

  /** `parseInt(page || "0") * parseInt(limit || "100")`; NaN (`None`) when either is. */
  function Offset(pageParam: Option<string>, limitParam: Option<string>): Option<int>
  {
    var page := ParseInt(if pageParam.Some? && pageParam.value != "" then pageParam.value else "0");
    var limit := ParseInt(if limitParam.Some? && limitParam.value != "" then limitParam.value else "100");
    if page.Some? && limit.Some? then Some(page.value * limit.value) else None
  }

  /** Page and limit written in digits give the offset page × limit. */
  lemma OffsetOfDigits(page: string, limit: string)
    requires page != [] && AllDigits(page) && limit != [] && AllDigits(limit)
    ensures Offset(Some(page), Some(limit)) == Some(DigitsValue(page) * DigitsValue(limit))
  {
    ParseIntOfDigits(page);
    ParseIntOfDigits(limit);
  }

  lemma ParseIntOfDigits(s: string)
    requires s != [] && AllDigits(s)
    ensures ParseInt(s) == Some(DigitsValue(s) as int)
  {
    assert TrimLeft(s) == s by {
      assert IsDigit(s[0]);
    }
    assert DigitRun(s) == |s| by {
      assert s[..|s|] == s;
      DigitRunOfDigits(s, |s|);
    }
    ParseIntWhole(s);
  }

  /** A string with no leading space or sign that is one run of digits reads as its digits. */
  lemma ParseIntWhole(s: string)
    requires AllDigits(s) && TrimLeft(s) == s && SignLength(s) == 0 && DigitRun(s) == |s| > 0
    ensures ParseInt(s) == Some(DigitsValue(s) as int)
  {
    assert s[0..] == s;
    assert s[0..][..|s|] == s;
  }

  /** The search filter on `column`: the term with every `'` doubled inside a LIKE
      pattern, or nothing for an empty term. */
  function WhereClause(searchTerm: string, column: string): string
  {
    var safeSearch := SqlDump.DoubleQuotes(searchTerm);
    if safeSearch == "" then "" else "WHERE LOWER(i." + column + ") LIKE LOWER('%" + safeSearch + "%')"
  }

  lemma {:induction false} DoubleQuotesEmpty(s: string)
    ensures SqlDump.DoubleQuotes(s) == "" <==> s == ""
  {
    if s != [] {
      DoubleQuotesEmpty(s[1..]);
    }
  }

  /** An empty term gives no WHERE clause, any other term gives one; the escaped term
      reads back as the term, and it holds twice as many quotes. */
  lemma WhereClauseSound(searchTerm: string, column: string)
    ensures WhereClause(searchTerm, column) == "" <==> searchTerm == ""
    ensures SqlDump.UndoubleQuotes(SqlDump.DoubleQuotes(searchTerm)) == searchTerm
    ensures Count(SqlDump.DoubleQuotes(searchTerm), SqlDump.Quote) == 2 * Count(searchTerm, SqlDump.Quote)
  {
    DoubleQuotesEmpty(searchTerm);
    SqlDump.UndoubleDouble(searchTerm);
    DoubleQuotesCount(searchTerm);
  }

  lemma {:induction false} DoubleQuotesCount(s: string)
    ensures Count(SqlDump.DoubleQuotes(s), SqlDump.Quote) == 2 * Count(s, SqlDump.Quote)
  {
    if s != [] {
      DoubleQuotesCount(s[1..]);
      var head := if s[0] == SqlDump.Quote then "''" else [s[0]];
      assert SqlDump.DoubleQuotes(s) == head + SqlDump.DoubleQuotes(s[1..]);
      CountAppend(head, SqlDump.DoubleQuotes(s[1..]), SqlDump.Quote);
    }
  }

  // ---------------------------------------------------------------------------
  // Grouping

  /** A fetched row, with the columns the grouping reads; `null` columns are `None`. */
  datatype ItemRow = ItemRow(id: int, name: string, category: Option<string>, originTable: Option<string>)

  /** `item.origin_table?.toLowerCase() || "uncategorized"`. */
  function OriginKey(item: ItemRow): string
  {
    if item.originTable.Some? && ToLower(item.originTable.value) != "" then ToLower(item.originTable.value)
    else "uncategorized"
  }

  /** `item.category || "Sin Categoría"`. */
  function CategoryKey(item: ItemRow): string
  {
    if item.category.Some? && item.category.value != "" then item.category.value else "Sin Categoría"
  }

  /** The grouping `reduce`: each row pushed onto the list of its key, a new key making
      a new, last, list. */
  function GroupBy(items: seq<ItemRow>, key: ItemRow -> string): (r: Groups<ItemRow>)
    ensures forall i :: 0 <= i < |r| ==> r[i].items != []
  {
    if items == [] then []
    else
      var n := |items| - 1;
      var g := GroupBy(items[..n], key);
      var k := key(items[n]);
      PutKeepsNonEmpty(g, k, GetOr(g, k) + [items[n]]);
      Put(g, k, GetOr(g, k) + [items[n]])
  }

  lemma PutKeepsNonEmpty(g: Groups<ItemRow>, tag: string, xs: seq<ItemRow>)
    requires xs != [] && forall i :: 0 <= i < |g| ==> g[i].items != []
    ensures forall i :: 0 <= i < |Put(g, tag, xs)| ==> Put(g, tag, xs)[i].items != []
  {
    match IndexOfTag(g, tag)
    case None =>
    case Some(k) =>
  }

  /** The rows with key `k`, in their order. */
  function WithKey(items: seq<ItemRow>, key: ItemRow -> string, k: string): seq<ItemRow>
  {
    if items == [] then []
    else
      var n := |items| - 1;
      WithKey(items[..n], key, k) + (if key(items[n]) == k then [items[n]] else [])
  }

  /** The `reduce`, pushing into `acc[category]`. */
  method GroupItems(items: seq<ItemRow>, key: ItemRow -> string) returns (acc: Groups<ItemRow>)
    ensures acc == GroupBy(items, key)
  {
    acc := [];
    for i := 0 to |items|
      invariant acc == GroupBy(items[..i], key)
    {
      assert items[..i + 1][..i] == items[..i];
      var category := key(items[i]);
      acc := Put(acc, category, GetOr(acc, category) + [items[i]]);
    }
    assert items[..|items|] == items;
  }

  /** Each group holds exactly the rows with its key, in input order; a key no row has
      has no group. */
  lemma {:induction false} GroupHoldsKey(items: seq<ItemRow>, key: ItemRow -> string, k: string)
    ensures GetOr(GroupBy(items, key), k) == WithKey(items, key, k)
    ensures Get(GroupBy(items, key), k).None? <==> WithKey(items, key, k) == []
  {
    if items != [] {
      var n := |items| - 1;
      var g := GroupBy(items[..n], key);
      var kn := key(items[n]);
      GroupHoldsKey(items[..n], key, k);
      GetPut(g, kn, GetOr(g, kn) + [items[n]], k);
      GroupHoldsKey(items[..n], key, kn);
    }
  }

  /** No two groups share a key. */
  lemma {:induction false} GroupKeysUnique(items: seq<ItemRow>, key: ItemRow -> string)
    ensures UniqueTags(GroupBy(items, key))
  {
    if items != [] {
      var n := |items| - 1;
      var g := GroupBy(items[..n], key);
      var kn := key(items[n]);
      GroupKeysUnique(items[..n], key);
      PutUnique(g, kn, GetOr(g, kn) + [items[n]]);
    }
  }

  // ---------------------------------------------------------------------------
  // Responses

  /** The values of a JSON response object, as `Object.values` sees them. */
  datatype JsonValue = Array(length: nat) | Number(x: int)

  /** `Object.values(data).every(val => Array.isArray(val) && val.length === 0)`. */
  function AllArraysEmpty(values: seq<JsonValue>): bool
  {
    forall i :: 0 <= i < |values| ==> values[i].Array? && values[i].length == 0
  }

  /** The tags-with-elements response: the four buckets and the total count. */
  datatype TagsResponse = TagsResponse(materiales: seq<ItemRow>, indices: seq<ItemRow>, items: seq<ItemRow>,
                                       jornales: seq<ItemRow>, total: int)

  function TagsData(rows: seq<ItemRow>, total: int): TagsResponse
  {
    var g := GroupBy(rows, OriginKey);
    TagsResponse(GetOr(g, "materiales"), GetOr(g, "indices"), GetOr(g, "items"), GetOr(g, "jornales"), total)
  }

  /** The four bucket arrays of the response. */
  function Buckets(d: TagsResponse): seq<JsonValue>
  {
    [Array(|d.materiales|), Array(|d.indices|), Array(|d.items|), Array(|d.jornales|)]
  }

  function TagsValues(d: TagsResponse): seq<JsonValue>
  {
    Buckets(d) + [Number(d.total)]
  }

  lemma BucketsEmpty(d: TagsResponse)
    ensures AllArraysEmpty(Buckets(d)) <==> d.materiales == [] && d.indices == [] && d.items == [] && d.jornales == []
  {
    var b := Buckets(d);
    if AllArraysEmpty(b) {
      assert b[0].length == 0 && b[1].length == 0 && b[2].length == 0 && b[3].length == 0;
    }
  }

  /** The status of the tags-with-elements route as written: the `every` also sees the
      `total` count, which is not an array. */
  function TagsStatusAsWritten(d: TagsResponse): int
  {
    if AllArraysEmpty(TagsValues(d)) then 404 else 200
  }

  /** As written the route never answers 404: a page without a single row is a 200 with
      four empty lists. */
  lemma TagsNever404(rows: seq<ItemRow>, total: int)
    ensures TagsStatusAsWritten(TagsData(rows, total)) == 200
    ensures TagsStatusAsWritten(TagsData([], 0)) == 200 && TagsData([], 0).materiales == []
  {
    assert TagsValues(TagsData(rows, total))[4] == Number(total);
    assert TagsValues(TagsData([], 0))[4] == Number(0);
  }

  /** The check as intended: 404 exactly when every bucket is empty. */
  function TagsStatus(d: TagsResponse): int
  {
    if AllArraysEmpty(Buckets(d)) then 404 else 200
  }

  /** The intended check answers 404 exactly when no row falls into one of the four
      buckets, in particular for a page without rows. */
  lemma TagsStatusSound(rows: seq<ItemRow>, total: int)
    ensures TagsStatus(TagsData(rows, total)) == 404 <==>
            WithKey(rows, OriginKey, "materiales") == [] && WithKey(rows, OriginKey, "indices") == [] &&
            WithKey(rows, OriginKey, "items") == [] && WithKey(rows, OriginKey, "jornales") == []
    ensures TagsStatus(TagsData([], total)) == 404
  {
    GroupHoldsKey(rows, OriginKey, "materiales");
    GroupHoldsKey(rows, OriginKey, "indices");
    GroupHoldsKey(rows, OriginKey, "items");
    GroupHoldsKey(rows, OriginKey, "jornales");
    BucketsEmpty(TagsData(rows, total));
    BucketsEmpty(TagsData([], total));
  }

  /** The table-data response is the grouping itself. */
  function TableDataValues(g: Groups<ItemRow>): (r: seq<JsonValue>)
    ensures |r| == |g| && forall i :: 0 <= i < |g| ==> r[i] == Array(|g[i].items|)
  {
    if g == [] then [] else [Array(|g[0].items|)] + TableDataValues(g[1..])
  }

  function TableDataStatus(rows: seq<ItemRow>): int
  {
    if AllArraysEmpty(TableDataValues(GroupBy(rows, CategoryKey))) then 404 else 200
  }

  /** The table-data route answers 404 exactly when there are no rows: every group it
      builds holds at least one row. */
  lemma TableDataNotFoundIffEmpty(rows: seq<ItemRow>)
    ensures TableDataStatus(rows) == 404 <==> rows == []
  {
    var g := GroupBy(rows, CategoryKey);
    if rows != [] {
      var n := |rows| - 1;
      GroupHoldsKey(rows, CategoryKey, CategoryKey(rows[n]));
      assert WithKey(rows, CategoryKey, CategoryKey(rows[n])) != [];
      assert g != [];
      assert TableDataValues(g)[0] == Array(|g[0].items|);
    }
  }
}
