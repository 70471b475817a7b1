// The legacy price-table migration: the month-column to date map, category-row detection,
// the per-row loop of one table (category tracking, item extraction, month prices) and the
// price rows kept for an inserted batch. Connections and queries are left out: a table
// arrives as its described column names and its rows.

module Migration {
  import opened Strings

  // ---------------------------------------------------------------------------
  // Month columns

  /** The keys of `MONTH_MAP`, in their insertion order. */
  const MonthAbbrs: seq<string> := ["ene", "feb", "mar", "abr", "may", "jun", "jul", "ago", "sep", "oct", "nov", "dic"]

  /** The values of `MONTH_MAP`. */
  const MonthNums: seq<string> := ["01", "02", "03", "04", "05", "06", "07", "08", "09", "10", "11", "12"]

  const FirstYear: nat := 2009
  const LastYear: nat := 2025

  /** Twelve months for each year from 2009 to 2025. */
  const MonthColumns: nat := 12 * (LastYear - FirstYear + 1)

  /** `String(year).slice(-2)`. */
  function YearSuffix(year: nat): string
  {
    var s := NatToString(year);
    if |s| >= 2 then s[|s| - 2..] else s
  }

  /** `${abbr}-${yearSuffix}`. */
  function ColumnName(year: nat, month: nat): string
    requires month < 12
  {
    MonthAbbrs[month] + "-" + YearSuffix(year)
  }

  /** `${year}-${monthNum}-01`. */
  function IsoDate(year: nat, month: nat): string
    requires month < 12
  {
    NatToString(year) + "-" + MonthNums[month] + "-01"
  }

  /** The year and month written by the `t`-th assignment of the nested loops. */
  function SlotYear(t: nat): nat
  {
    FirstYear + t / 12
  }

  function SlotMonth(t: nat): nat
  {
    t % 12
  }

  /** The map after the first `t` assignments, the `s`-th writing `date(s)` under `key(s)`. */
  function Filled(key: nat -> string, date: nat -> string, t: nat): map<string, string>
  {
    if t == 0 then map[]
    else Filled(key, date, t - 1)[key(t - 1) := date(t - 1)]
  }

  /** The first `n` assignments write distinct keys. */
  predicate KeysDistinct(key: nat -> string, n: nat)
  {
    forall s, t :: 0 <= s < t < n ==> key(s) != key(t)
  }

  /** The key and the date of the `t`-th assignment. */
  function SlotKey(t: nat): string
  {
    ColumnName(SlotYear(t), SlotMonth(t))
  }

  function SlotDate(t: nat): string
  {
    IsoDate(SlotYear(t), SlotMonth(t))
  }

  /** `MONTH_TO_DATE`. */
  function MonthToDate(): map<string, string>
  {
    Filled(SlotKey, SlotDate, MonthColumns)
  }

  /** `buildMonthToDate`: the nested loops over years and over `MONTH_MAP`. */
  method BuildMonthToDate() returns (m: map<string, string>)
    ensures m == MonthToDate()
  {
    m := map[];
    ghost var t := 0;
    for year := FirstYear to LastYear + 1
      invariant t == (year - FirstYear) * 12 && m == Filled(SlotKey, SlotDate, t)
    {
      for month := 0 to 12
        invariant t == (year - FirstYear) * 12 + month && m == Filled(SlotKey, SlotDate, t)
      {
        var yearSuffix := YearSuffix(year);
        var colName := MonthAbbrs[month] + "-" + yearSuffix;
        var isoDate := NatToString(year) + "-" + MonthNums[month] + "-01";
        FilledStep(t, year, month);
        m := m[colName := isoDate];
        t := t + 1;
      }
    }
    assert t == MonthColumns;
  }

  /** The `t`-th assignment writes the date of `year` and `month` under its column. */
  lemma FilledStep(t: nat, year: nat, month: nat)
    requires FirstYear <= year && month < 12 && t == (year - FirstYear) * 12 + month
    ensures Filled(SlotKey, SlotDate, t + 1) == Filled(SlotKey, SlotDate, t)[ColumnName(year, month) := IsoDate(year, month)]
  {
    assert SlotYear(t) == year && SlotMonth(t) == month;
  }

  /** The last digit of a numeral. */
  lemma LastDigit(n: nat)
    ensures var s := NatToString(n); s[|s| - 1] == DigitChar(n % 10)
  {
  }

  /** A year of two or more digits ends in its tens and units digits. */
  lemma YearSuffixDigits(year: nat)
    requires year >= 10
    ensures YearSuffix(year) == [DigitChar(year / 10 % 10), DigitChar(year % 10)]
  {
    var s := NatToString(year);
    var q := year / 10;
    var head := NatToString(q);
    var units := DigitChar(year % 10);
    assert s == head + [units];
    LastDigit(q);
    var tens := head[|head| - 1];
    assert tens == DigitChar(q % 10);
    assert s[|s| - 2..] == [tens, units];
  }

  lemma AbbrLength(month: nat)
    requires month < 12
    ensures |MonthAbbrs[month]| == 3
  {
  }

  /** The twelve abbreviations are distinct: their first and last letters tell them apart. */
  lemma AbbrsDistinct(i: nat, j: nat)
    requires i < 12 && j < 12 && MonthAbbrs[i] == MonthAbbrs[j]
    ensures i == j
  {
    var a := MonthAbbrs[i];
    assert a[0] == MonthAbbrs[j][0] && a[2] == MonthAbbrs[j][2];
  }

  /** Different (year, month) pairs in 2009..2025 give different column names. */
  lemma ColumnNameInjective(y1: nat, m1: nat, y2: nat, m2: nat)
    requires FirstYear <= y1 <= LastYear && FirstYear <= y2 <= LastYear && m1 < 12 && m2 < 12
    requires ColumnName(y1, m1) == ColumnName(y2, m2)
    ensures y1 == y2 && m1 == m2
  {
    ColumnNameParts(y1, m1);
    ColumnNameParts(y2, m2);
    AbbrsDistinct(m1, m2);
    DigitCharInjective(y1 / 10 % 10, y2 / 10 % 10);
    DigitCharInjective(y1 % 10, y2 % 10);
    YearFromDigits(y1, y2);
  }

  /** Within 2009..2025 a year is fixed by its last two digits. */
  lemma YearFromDigits(y1: nat, y2: nat)
    requires FirstYear <= y1 <= LastYear && FirstYear <= y2 <= LastYear
    requires y1 / 10 % 10 == y2 / 10 % 10 && y1 % 10 == y2 % 10
    ensures y1 == y2
  {
    assert 200 <= y1 / 10 <= 202 && 200 <= y2 / 10 <= 202;
    assert y1 / 10 % 10 == y1 / 10 - 200 && y2 / 10 % 10 == y2 / 10 - 200;
  }

  /** A column name is the three-letter abbreviation, a dash and the year's last two digits. */
  lemma ColumnNameParts(year: nat, month: nat)
    requires year >= 10 && month < 12
    ensures var c := ColumnName(year, month);
            |c| == 6 && c[..3] == MonthAbbrs[month] &&
            c[4] == DigitChar(year / 10 % 10) && c[5] == DigitChar(year % 10)
  {
    AbbrLength(month);
    YearSuffixDigits(year);
  }

  lemma DigitCharInjective(a: nat, b: nat)
    requires a < 10 && b < 10 && DigitChar(a) == DigitChar(b)
    ensures a == b
  {
  }

  /** Distinct slots write distinct keys. */
  lemma SlotsDistinct(s: nat, t: nat)
    requires s < t < MonthColumns
    ensures SlotKey(s) != SlotKey(t)
  {
    if SlotKey(s) == SlotKey(t) {
      ColumnNameInjective(SlotYear(s), SlotMonth(s), SlotYear(t), SlotMonth(t));
    }
  }

  /** The 204 slots write distinct keys. */
  lemma SlotKeysDistinct()
    ensures KeysDistinct(SlotKey, MonthColumns)
  {
    forall s: nat, t: nat | s < t < MonthColumns
      ensures SlotKey(s) != SlotKey(t)
    {
      SlotsDistinct(s, t);
    }
  }

  /** A key written by an earlier assignment keeps its date when later keys differ. */
  lemma {:induction false} FilledAt(key: nat -> string, date: nat -> string, t: nat, s: nat)
    requires s < t && KeysDistinct(key, t)
    ensures key(s) in Filled(key, date, t) && Filled(key, date, t)[key(s)] == date(s)
  {
    if s < t - 1 {
      FilledAt(key, date, t - 1, s);
      assert key(s) != key(t - 1);
    }
  }

  /** Every key was written by an earlier assignment. */
  lemma {:induction false} FilledKey(key: nat -> string, date: nat -> string, t: nat, k: string)
    requires k in Filled(key, date, t)
    ensures exists s :: 0 <= s < t && k == key(s)
  {
    if k != key(t - 1) {
      FilledKey(key, date, t - 1, k);
    }
  }

  /** A key none of the first `t` assignments writes is absent after them. */
  lemma {:induction false} NotFilled(key: nat -> string, date: nat -> string, t: nat, k: string)
    requires forall s :: 0 <= s < t ==> key(s) != k
    ensures k !in Filled(key, date, t)
  {
    if t > 0 {
      NotFilled(key, date, t - 1, k);
    }
  }

  /** With distinct keys each assignment adds a new key. */
  lemma {:induction false} FilledSize(key: nat -> string, date: nat -> string, t: nat)
    requires KeysDistinct(key, t)
    ensures |Filled(key, date, t).Keys| == t
  {
    if t > 0 {
      var previous := Filled(key, date, t - 1);
      assert KeysDistinct(key, t - 1);
      FilledSize(key, date, t - 1);
      NotFilled(key, date, t - 1, key(t - 1));
      NewKeyCounts(previous, key(t - 1), date(t - 1));
    }
  }

  /** Writing a key that is absent adds one key. */
  lemma NewKeyCounts(m: map<string, string>, k: string, v: string)
    requires k !in m
    ensures |m[k := v].Keys| == |m.Keys| + 1
  {
    assert m[k := v].Keys == m.Keys + {k};
  }

  /** `MONTH_TO_DATE` has 204 keys; `abbr-YY` maps to `YYYY-MM-01` for every month of
      every year from 2009 to 2025, and every key is one of these. */
  lemma MonthToDateSound(year: nat, month: nat)
    requires FirstYear <= year <= LastYear && month < 12
    ensures |MonthToDate().Keys| == 204
    ensures ColumnName(year, month) in MonthToDate() && MonthToDate()[ColumnName(year, month)] == IsoDate(year, month)
  {
    SlotKeysDistinct();
    FilledSize(SlotKey, SlotDate, MonthColumns);
    var s := (year - FirstYear) * 12 + month;
    SlotOf(year, month, s);
    FilledAt(SlotKey, SlotDate, MonthColumns, s);
  }

  /** The slot of a year and a month gives them back. */
  lemma SlotOf(year: nat, month: nat, s: nat)
    requires FirstYear <= year <= LastYear && month < 12 && s == (year - FirstYear) * 12 + month
    ensures s < MonthColumns && SlotKey(s) == ColumnName(year, month) && SlotDate(s) == IsoDate(year, month)
  {
    assert s / 12 == year - FirstYear && s % 12 == month;
  }

  /** Every key of `MONTH_TO_DATE` is `abbr-YY` for a month and a year from 2009 to 2025. */
  lemma MonthToDateKeys(key: string)
    requires key in MonthToDate()
    ensures exists y, m :: FirstYear <= y <= LastYear && 0 <= m < 12 && key == ColumnName(y, m)
  {
    FilledKey(SlotKey, SlotDate, MonthColumns, key);
    var t :| 0 <= t < MonthColumns && key == SlotKey(t);
    assert FirstYear <= SlotYear(t) <= LastYear && key == ColumnName(SlotYear(t), SlotMonth(t));
  }

  /** The first and last keys: `ene-09` is `2009-01-01` and `dic-25` is `2025-12-01`. */
  lemma MonthToDateEnds()
    ensures "ene-09" in MonthToDate() && MonthToDate()["ene-09"] == "2009-01-01"
    ensures "dic-25" in MonthToDate() && MonthToDate()["dic-25"] == "2025-12-01"
  {
    MonthToDateSound(2009, 0);
    MonthToDateSound(2025, 11);
    FirstColumn();
    LastColumn();
  }

  lemma FirstColumn()
    ensures ColumnName(2009, 0) == "ene-09" && IsoDate(2009, 0) == "2009-01-01"
  {
    YearSuffixDigits(2009);
    assert NatToString(20) == "20";
    assert NatToString(200) == "200";
    assert NatToString(2009) == "2009";
  }

  lemma LastColumn()
    ensures ColumnName(2025, 11) == "dic-25" && IsoDate(2025, 11) == "2025-12-01"
  {
    YearSuffixDigits(2025);
    assert NatToString(20) == "20";
    assert NatToString(202) == "202";
    assert NatToString(2025) == "2025";
  }

  // ---------------------------------------------------------------------------
  // Rows

  /** A cell of an old table: SQL `NULL`, a string, or a number with the text its
      `toString()` gives (`None` for NaN). */
  datatype Value = Null | Text(text: string) | Number(number: Option<real>, shown: string)

  /** A row as `Object.entries` lists it: column names with their values. */
  type Row = seq<(string, Value)>

  /** The index of the first entry named `column`, searching from `from`. */
  function FirstEntry(row: Row, column: string, from: nat): (r: Option<nat>)
    requires from <= |row|
    ensures r.Some? ==> from <= r.value < |row| && row[r.value].0 == column &&
                        forall j :: from <= j < r.value ==> row[j].0 != column
    ensures r.None? ==> forall j :: from <= j < |row| ==> row[j].0 != column
    decreases |row| - from
  {
    if from == |row| then None
    else if row[from].0 == column then Some(from)
    else FirstEntry(row, column, from + 1)
  }

  /** `row[column]`: the value of the first entry with that name; `None` is `undefined`. */
  function Lookup(row: Row, column: string): Option<Value>
  {
    match FirstEntry(row, column, 0)
    case None => None
    case Some(i) => Some(row[i].1)
  }

  /** `value.toString()`. */
  function Shown(v: Value): string
  {
    match v
    case Null => "null"
    case Text(s) => s
    case Number(_, shown) => shown
  }

  /** `null` or `undefined`. */
  predicate Nullish(v: Option<Value>)
  {
    v.None? || v.value.Null?
  }

  /** A configured column name is truthy: present and non-empty. */
  predicate Given(column: Option<string>)
  {
    column.Some? && column.value != ""
  }

  /** `isCategoryRow`: `IsBlank(s)` is `s.trim() === ""` by `TrimEmptyIffBlank`. */
  predicate IsCategoryRow(row: Row, unidCol: Option<string>)
  {
    Given(unidCol) &&
    var unidValue := Lookup(row, unidCol.value);
    Nullish(unidValue) || IsBlank(Shown(unidValue.value))
  }

  /** A table without a unit column has no category rows; with one, a row is a category
      row exactly when its first entry for that column is missing, `NULL`, or blank text
      (text that trims to nothing, by `TrimEmptyIffBlank`). */
  lemma IsCategoryRowSound(row: Row, unidCol: Option<string>)
    ensures !Given(unidCol) ==> !IsCategoryRow(row, unidCol)
    ensures Given(unidCol) ==>
              (IsCategoryRow(row, unidCol) <==>
                 (forall i :: 0 <= i < |row| ==> row[i].0 != unidCol.value) ||
                 exists i :: 0 <= i < |row| && row[i].0 == unidCol.value &&
                             (forall j :: 0 <= j < i ==> row[j].0 != unidCol.value) &&
                             (row[i].1.Null? || IsBlank(Shown(row[i].1))))
  {
    if Given(unidCol) {
      var c := unidCol.value;
      var v := Lookup(row, c);
      if v.Some? {
        var i := FirstEntry(row, c, 0).value;
        assert row[i].1 == v.value;
      }
    }
  }

  /** `isValidPrice`: a number that is not NaN. */
  predicate IsValidPrice(v: Value)
  {
    v.Number? && v.number.Some?
  }

  // ---------------------------------------------------------------------------
  // One table

  datatype Config = Config(tableName: string, itemNameCol: string, unidCol: Option<string>, codCol: Option<string>,
                           publicarCol: Option<string>, typeValue: string)

  datatype PriceEntry = PriceEntry(date: string, price: Value)

  datatype Item = Item(cod: string, publicar: Option<string>, itemName: string, unid: Option<string>,
                       category: Option<string>, typeValue: string, tableName: string)

  /** `requiredCols.filter((col) => !columnNames.includes(col))`. */
  function MissingColumns(config: Config, columnNames: seq<string>): (r: seq<string>)
    ensures forall c :: c in r ==> c !in columnNames
    ensures config.itemNameCol !in columnNames ==> r != []
    ensures Given(config.codCol) && config.codCol.value !in columnNames ==> r != []
  {
    var required := [config.itemNameCol] +
                    (if Given(config.codCol) then [config.codCol.value] else []) +
                    (if Given(config.unidCol) then [config.unidCol.value] else []) +
                    (if Given(config.publicarCol) then [config.publicarCol.value] else []);
    FilterMissing(required, columnNames)
  }

  function FilterMissing(cols: seq<string>, columnNames: seq<string>): (r: seq<string>)
    ensures forall c :: c in r <==> c in cols && c !in columnNames
  {
    if cols == [] then []
    else (if cols[0] in columnNames then [] else [cols[0]]) + FilterMissing(cols[1..], columnNames)
  }

  /** `typeValue.charAt(0).toUpperCase() + typeValue.slice(1)`. */
  function Capitalize(s: string): (r: string)
    ensures |r| == |s| && (s != [] ==> r[0] == ToUpperChar(s[0]) && r[1..] == s[1..])
  {
    if s == [] then [] else [ToUpperChar(s[0])] + s[1..]
  }

  /** `currentCategory` before the first row. */
  function InitialCategory(config: Config): Option<string>
  {
    if Given(config.unidCol) then None else Some(Capitalize(config.typeValue))
  }

  /** `row[col].toString()` for a configured column the row has no cell for: the cell is
      `undefined`, which is not `null`, and its `toString` throws a TypeError. */
  predicate Throws(row: Row, column: Option<string>)
  {
    Given(column) && Lookup(row, column.value).None?
  }

  /** A configured column read as `col && row[col] !== null ? row[col].toString().trim()
      : null`, for a row that has the cell (see `Throws`). The conditional binds looser
      than `&&`, so a falsy column name (`null` or `""`) gives `null`, like a null cell. */
  function OptionalText(row: Row, column: Option<string>): (r: Option<string>)
    requires !Throws(row, column)
    ensures r.Some? <==> Given(column) && Lookup(row, column.value) != Some(Null)
    ensures r.Some? ==> r.value == Trim(Shown(Lookup(row, column.value).value))
  {
    if !Given(column) then None
    else
      var v := Lookup(row, column.value);
      if v == Some(Null) then None else Some(Trim(Shown(v.value)))
  }

  /** The entries of `row` that become prices: month columns whose value is not `null`,
      `undefined` or `""`. */
  predicate PricedEntry(entry: (string, Value), monthToDate: map<string, string>)
  {
    entry.0 in monthToDate && entry.1 != Null && entry.1 != Text("")
  }

  /** The `itemPrices` loop over `Object.entries(row)`. */
  function PricesOf(row: Row, monthToDate: map<string, string>): seq<PriceEntry>
  {
    if row == [] then []
    else
      var n := |row| - 1;
      PricesOf(row[..n], monthToDate) +
      (if PricedEntry(row[n], monthToDate) then [PriceEntry(monthToDate[row[n].0], row[n].1)] else [])
  }

  /** What one row does: start a category, be skipped, give an item and its prices, or
      throw because it lacks a cell the loop body reads. */
  datatype RowKind =
    | CategoryRow(name: string)
    | Skipped
    | ItemRow(cod: string, publicar: Option<string>, itemName: string, unid: Option<string>, prices: seq<PriceEntry>)
    | Thrown

  /** The row has a cell for every configured column, as every row of `SELECT *` does
      once the required columns have been checked. */
  predicate HasConfiguredCells(config: Config, row: Row)
  {
    Lookup(row, config.itemNameCol).Some? &&
    !Throws(row, config.codCol) && !Throws(row, config.unidCol) && !Throws(row, config.publicarCol)
  }

  /** The body of the `for (const row of rows)` loop, without its effect on the batches. */
  function Classify(config: Config, columnNames: seq<string>, monthToDate: map<string, string>, row: Row): (r: RowKind)
    ensures r.CategoryRow? <==> IsCategoryRow(row, config.unidCol) && Lookup(row, config.itemNameCol).Some?
    ensures r.ItemRow? ==> r.itemName != "" && r.prices == PricesOf(row, monthToDate)
    ensures r.Thrown? ==> !HasConfiguredCells(config, row)
    ensures r.ItemRow? ==> HasConfiguredCells(config, row)
  {
    var nameValue := Lookup(row, config.itemNameCol);
    if IsCategoryRow(row, config.unidCol) then
      if nameValue.None? then Thrown
      else CategoryRow(if nameValue == Some(Null) then "Category" else Trim(Shown(nameValue.value)))
    else if Given(config.codCol) && config.codCol.value !in columnNames then Skipped
    else if Throws(row, config.codCol) || nameValue.None? || Throws(row, config.unidCol) || Throws(row, config.publicarCol) then
      Thrown
    else
      var codValue := if Given(config.codCol) then Lookup(row, config.codCol.value) else None;
      var cod := if Given(config.codCol) && codValue != Some(Null) then Shown(codValue.value) else "";
      var itemName := if nameValue == Some(Null) then "" else Trim(Shown(nameValue.value));
      if itemName == "" then Skipped
      else ItemRow(cod, OptionalText(row, config.publicarCol), itemName, OptionalText(row, config.unidCol), PricesOf(row, monthToDate))
  }

  /** The fields of an item row: the trimmed name; `cod` as its cell's text when `codCol`
      is given and the cell is not null, `""` otherwise; `unid` and `publicar` as their
      trimmed cells when the column is given and the cell not null, `null` otherwise. */
  lemma ItemRowFields(config: Config, columnNames: seq<string>, monthToDate: map<string, string>, row: Row)
    requires Classify(config, columnNames, monthToDate, row).ItemRow?
    ensures var r := Classify(config, columnNames, monthToDate, row);
            Lookup(row, config.itemNameCol) != Some(Null) &&
            r.itemName == Trim(Shown(Lookup(row, config.itemNameCol).value)) &&
            (if Given(config.codCol) && Lookup(row, config.codCol.value) != Some(Null)
             then r.cod == Shown(Lookup(row, config.codCol.value).value) else r.cod == "")
    ensures var r := Classify(config, columnNames, monthToDate, row);
            (r.unid.Some? <==> Given(config.unidCol) && Lookup(row, config.unidCol.value) != Some(Null)) &&
            (r.unid.Some? ==> r.unid.value == Trim(Shown(Lookup(row, config.unidCol.value).value)))
    ensures var r := Classify(config, columnNames, monthToDate, row);
            (r.publicar.Some? <==> Given(config.publicarCol) && Lookup(row, config.publicarCol.value) != Some(Null)) &&
            (r.publicar.Some? ==> r.publicar.value == Trim(Shown(Lookup(row, config.publicarCol.value).value)))
  {
  }

  /** A row lacking the item-name cell throws, unless it is skipped first for a missing
      `codCol`; a complete row never throws. */
  lemma ThrowsExactly(config: Config, columnNames: seq<string>, monthToDate: map<string, string>, row: Row)
    ensures Lookup(row, config.itemNameCol).None? && !(Given(config.codCol) && config.codCol.value !in columnNames &&
                                                       !IsCategoryRow(row, config.unidCol)) ==>
            Classify(config, columnNames, monthToDate, row).Thrown?
    ensures HasConfiguredCells(config, row) ==> !Classify(config, columnNames, monthToDate, row).Thrown?
  {
  }

  /** `currentCategory`, `itemsBatch` and `itemPricesBatch` after some rows. */
  datatype Batches = Batches(currentCategory: Option<string>, items: seq<Item>, itemPrices: seq<seq<PriceEntry>>)

  function Step(config: Config, b: Batches, kind: RowKind): Batches
  {
    match kind
    case CategoryRow(name) => b.(currentCategory := Some(name))
    case Skipped => b
    case Thrown => b
    case ItemRow(cod, publicar, itemName, unid, prices) =>
      var item := Item(cod, publicar, itemName, unid, b.currentCategory, config.typeValue, config.tableName);
      Batches(b.currentCategory, b.items + [item], b.itemPrices + [prices])
  }

  /** The kinds of the rows, in order. */
  function Kinds(config: Config, columnNames: seq<string>, monthToDate: map<string, string>, rows: seq<Row>): (r: seq<RowKind>)
    ensures |r| == |rows|
    ensures forall i :: 0 <= i < |rows| ==> r[i] == Classify(config, columnNames, monthToDate, rows[i])
  {
    seq(|rows|, i requires 0 <= i < |rows| => Classify(config, columnNames, monthToDate, rows[i]))
  }

  /** The loop over the kinds of the rows, from `start`. */
  function Run(config: Config, start: Batches, kinds: seq<RowKind>): Batches
  {
    if kinds == [] then start else Step(config, Run(config, start, kinds[..|kinds| - 1]), kinds[|kinds| - 1])
  }

  /** The first row that throws, if any. */
  function FirstThrown(kinds: seq<RowKind>): (r: Option<nat>)
    ensures r.Some? ==> r.value < |kinds| && kinds[r.value].Thrown? &&
                        forall j :: 0 <= j < r.value ==> !kinds[j].Thrown?
    ensures r.None? ==> forall j :: 0 <= j < |kinds| ==> !kinds[j].Thrown?
  {
    if kinds == [] then None
    else if kinds[0].Thrown? then Some(0)
    else match FirstThrown(kinds[1..])
      case None => None
      case Some(k) => Some(k + 1)
  }

  /** How `migrateTable` ends: the table skipped for a missing required column, the
      TypeError of the first row lacking a cell it reads (which ends the migration, whose
      transaction is rolled back), or the batches for the inserts. */
  datatype TableOutcome = MissingColumnsSkipped | RowThrew(index: nat) | Migrated(batches: Batches)

  /** `migrateTable` up to its inserts. The rows are those of `SELECT *`, already in
      `codCol` order. */
  function MigrateTable(config: Config, columnNames: seq<string>, monthToDate: map<string, string>, rows: seq<Row>): TableOutcome
  {
    if MissingColumns(config, columnNames) != [] then MissingColumnsSkipped
    else
      var kinds := Kinds(config, columnNames, monthToDate, rows);
      match FirstThrown(kinds)
      case Some(i) => RowThrew(i)
      case None => Migrated(Run(config, Batches(InitialCategory(config), [], []), kinds))
  }

  /** The loop of `migrateTable`, batch flushes aside. */
  method MigrateRows(config: Config, columnNames: seq<string>, monthToDate: map<string, string>, rows: seq<Row>)
    returns (r: TableOutcome)
    ensures r == MigrateTable(config, columnNames, monthToDate, rows)
  {
    if MissingColumns(config, columnNames) != [] {
      return MissingColumnsSkipped;
    }
    var kinds := Kinds(config, columnNames, monthToDate, rows);
    r := MigrateKinds(config, Batches(InitialCategory(config), [], []), kinds);
  }

  /** The row loop over the rows' kinds, from the batches `start`: it stops at the first
      row that throws, and otherwise runs every row. */
  method MigrateKinds(config: Config, start: Batches, kinds: seq<RowKind>) returns (r: TableOutcome)
    ensures FirstThrown(kinds).Some? ==> r == RowThrew(FirstThrown(kinds).value)
    ensures FirstThrown(kinds).None? ==> r == Migrated(Run(config, start, kinds))
  {
    var currentCategory := start.currentCategory;
    var itemsBatch := start.items;
    var itemPricesBatch := start.itemPrices;
    for i := 0 to |kinds|
      invariant Run(config, start, kinds[..i]) == Batches(currentCategory, itemsBatch, itemPricesBatch)
      invariant NoneThrownBefore(kinds, i)
    {
      assert kinds[..i + 1][..i] == kinds[..i];
      var kind := kinds[i];
      if kind.Thrown? {
        FirstThrownAt(kinds, i);
        return RowThrew(i);
      }
      currentCategory, itemsBatch, itemPricesBatch := AddRow(config, kind, currentCategory, itemsBatch, itemPricesBatch);
      NoneThrownExtend(kinds, i);
    }
    assert kinds[..|kinds|] == kinds;
    NoneThrown(kinds);
    r := Migrated(Batches(currentCategory, itemsBatch, itemPricesBatch));
  }

  /** One turn of the loop for a row that does not throw. */
  method AddRow(config: Config, kind: RowKind, currentCategory: Option<string>, itemsBatch: seq<Item>,
                itemPricesBatch: seq<seq<PriceEntry>>)
    returns (category: Option<string>, items: seq<Item>, itemPrices: seq<seq<PriceEntry>>)
    ensures Batches(category, items, itemPrices) == Step(config, Batches(currentCategory, itemsBatch, itemPricesBatch), kind)
  {
    category, items, itemPrices := currentCategory, itemsBatch, itemPricesBatch;
    match kind {
      case CategoryRow(name) =>
        category := Some(name);
      case ItemRow(cod, publicar, itemName, unid, prices) =>
        items := items + [Item(cod, publicar, itemName, unid, currentCategory, config.typeValue, config.tableName)];
        itemPrices := itemPrices + [prices];
      case _ =>
    }
  }

  predicate NoneThrownBefore(kinds: seq<RowKind>, i: nat)
  {
    forall j :: 0 <= j < i && j < |kinds| ==> !kinds[j].Thrown?
  }

  lemma NoneThrownExtend(kinds: seq<RowKind>, i: nat)
    requires i < |kinds| && !kinds[i].Thrown? && NoneThrownBefore(kinds, i)
    ensures NoneThrownBefore(kinds, i + 1)
  {
  }

  lemma FirstThrownAt(kinds: seq<RowKind>, i: nat)
    requires i < |kinds| && kinds[i].Thrown? && NoneThrownBefore(kinds, i)
    ensures FirstThrown(kinds) == Some(i)
  {
  }

  lemma NoneThrown(kinds: seq<RowKind>)
    requires NoneThrownBefore(kinds, |kinds|)
    ensures FirstThrown(kinds) == None
  {
  }

  /** Rows that all hold their configured cells never end the migration with a
      TypeError. */
  lemma CompleteRowsMigrate(config: Config, columnNames: seq<string>, monthToDate: map<string, string>, rows: seq<Row>)
    requires MissingColumns(config, columnNames) == []
    requires forall i :: 0 <= i < |rows| ==> HasConfiguredCells(config, rows[i])
    ensures MigrateTable(config, columnNames, monthToDate, rows).Migrated?
  {
    var kinds := Kinds(config, columnNames, monthToDate, rows);
    forall j | 0 <= j < |kinds|
      ensures !kinds[j].Thrown?
    {
      ThrowsExactly(config, columnNames, monthToDate, rows[j]);
    }
  }

  /** The index of the last category row, if any. */
  function LastCategory(kinds: seq<RowKind>): (r: Option<nat>)
    ensures r.Some? ==> r.value < |kinds| && kinds[r.value].CategoryRow? &&
                        forall j :: r.value < j < |kinds| ==> !kinds[j].CategoryRow?
    ensures r.None? ==> forall j :: 0 <= j < |kinds| ==> !kinds[j].CategoryRow?
  {
    if kinds == [] then None
    else if kinds[|kinds| - 1].CategoryRow? then Some(|kinds| - 1)
    else LastCategory(kinds[..|kinds| - 1])
  }

  /** The category in effect after some rows: the name of the last category row, or the
      starting category when there is none. */
  function CategoryAfter(start: Option<string>, kinds: seq<RowKind>): Option<string>
  {
    match LastCategory(kinds)
    case None => start
    case Some(i) => Some(kinds[i].name)
  }

  /** The loop keeps one price list per item, every item named, and the category in
      effect equal to the most recent category row. */
  lemma {:induction false} RunSound(config: Config, start: Batches, kinds: seq<RowKind>)
    requires |start.items| == |start.itemPrices|
    ensures var b := Run(config, start, kinds);
            |b.items| == |b.itemPrices| && b.currentCategory == CategoryAfter(start.currentCategory, kinds)
  {
    if kinds != [] {
      var n := |kinds| - 1;
      RunSound(config, start, kinds[..n]);
      if !kinds[n].CategoryRow? {
        assert LastCategory(kinds) == LastCategory(kinds[..n]);
      }
    }
  }

  /** A row adds an item exactly when it is an item row, and that item carries the
      category of the most recent category row before it (or the starting category);
      category rows and skipped rows add nothing. */
  lemma RowEffect(config: Config, start: Batches, kinds: seq<RowKind>, i: nat)
    requires |start.items| == |start.itemPrices| && i < |kinds|
    ensures var before := Run(config, start, kinds[..i]);
            var after := Run(config, start, kinds[..i + 1]);
            match kinds[i]
            case ItemRow(cod, publicar, itemName, unid, prices) =>
              after.items == before.items + [Item(cod, publicar, itemName, unid, CategoryAfter(start.currentCategory, kinds[..i]),
                                                  config.typeValue, config.tableName)] &&
              after.itemPrices == before.itemPrices + [prices]
            case _ => after.items == before.items && after.itemPrices == before.itemPrices
  {
    RunSound(config, start, kinds[..i]);
    assert kinds[..i + 1][..i] == kinds[..i];
  }

  /** Every item has a non-empty name and is the table's; without a unit column each
      carries the capitalised `typeValue`. */
  lemma {:induction false} ItemsSound(config: Config, columnNames: seq<string>, monthToDate: map<string, string>, rows: seq<Row>)
    ensures var kinds := Kinds(config, columnNames, monthToDate, rows);
            var b := Run(config, Batches(InitialCategory(config), [], []), kinds);
            forall j :: 0 <= j < |b.items| ==>
              b.items[j].itemName != "" && b.items[j].tableName == config.tableName && b.items[j].typeValue == config.typeValue &&
              (!Given(config.unidCol) ==> b.items[j].category == Some(Capitalize(config.typeValue)))
  {
    if rows != [] {
      var n := |rows| - 1;
      ItemsSound(config, columnNames, monthToDate, rows[..n]);
      var kinds := Kinds(config, columnNames, monthToDate, rows);
      var start := Batches(InitialCategory(config), [], []);
      assert kinds[..n] == Kinds(config, columnNames, monthToDate, rows[..n]);
      RunSound(config, start, kinds[..n]);
      if !Given(config.unidCol) {
        IsCategoryRowSound(rows[n], config.unidCol);
        NoCategoryRows(config, columnNames, monthToDate, rows[..n]);
      }
    }
  }

  /** Without a unit column no row is a category row. */
  lemma NoCategoryRows(config: Config, columnNames: seq<string>, monthToDate: map<string, string>, rows: seq<Row>)
    requires !Given(config.unidCol)
    ensures LastCategory(Kinds(config, columnNames, monthToDate, rows)).None?
  {
    var kinds := Kinds(config, columnNames, monthToDate, rows);
    forall j | 0 <= j < |kinds|
      ensures !kinds[j].CategoryRow?
    {
      IsCategoryRowSound(rows[j], config.unidCol);
    }
  }

  /** Each price comes from a month entry with a non-`null`, non-empty value, and is
      dated by that entry's column. */
  lemma {:induction false} PriceFrom(row: Row, monthToDate: map<string, string>, k: nat)
    requires k < |PricesOf(row, monthToDate)|
    ensures exists i :: 0 <= i < |row| && PricedEntry(row[i], monthToDate) &&
                        PricesOf(row, monthToDate)[k] == PriceEntry(monthToDate[row[i].0], row[i].1)
  {
    var n := |row| - 1;
    var prefix := row[..n];
    var before := PricesOf(prefix, monthToDate);
    var prices := PricesOf(row, monthToDate);
    assert prices == before + (if PricedEntry(row[n], monthToDate) then [PriceEntry(monthToDate[row[n].0], row[n].1)] else []);
    if k < |before| {
      PriceFrom(prefix, monthToDate, k);
      var i :| 0 <= i < |prefix| && PricedEntry(prefix[i], monthToDate) && before[k] == PriceEntry(monthToDate[prefix[i].0], prefix[i].1);
      assert row[i] == prefix[i] && prices[k] == before[k];
    } else {
      assert prices[k] == PriceEntry(monthToDate[row[n].0], row[n].1);
    }
  }

  /** Each month entry with a non-`null`, non-empty value gives a price. */
  lemma {:induction false} PriceOf(row: Row, monthToDate: map<string, string>, i: nat)
    requires i < |row| && PricedEntry(row[i], monthToDate)
    ensures PriceEntry(monthToDate[row[i].0], row[i].1) in PricesOf(row, monthToDate)
  {
    var n := |row| - 1;
    var prefix := row[..n];
    var before := PricesOf(prefix, monthToDate);
    assert PricesOf(row, monthToDate) == before + (if PricedEntry(row[n], monthToDate) then [PriceEntry(monthToDate[row[n].0], row[n].1)] else []);
    if i < n {
      assert prefix[i] == row[i];
      PriceOf(prefix, monthToDate, i);
    }
  }

  // ---------------------------------------------------------------------------
  // Inserting a batch

  datatype PriceRow = PriceRow(itemId: int, date: string, price: Value)

  /** `itemPricesBatch[i] || []`. */
  function PricesAt(itemPrices: seq<seq<PriceEntry>>, i: nat): seq<PriceEntry>
  {
    if i < |itemPrices| then itemPrices[i] else []
  }

  /** The prices of one item that pass `isValidDate` (`isDate`, standing for
      `!isNaN(Date.parse(date))`) and `isValidPrice`. */
  function ValidPrices(itemId: int, prices: seq<PriceEntry>, isDate: string -> bool): seq<PriceRow>
  {
    if prices == [] then []
    else
      var n := |prices| - 1;
      ValidPrices(itemId, prices[..n], isDate) +
      (if isDate(prices[n].date) && IsValidPrice(prices[n].price) then [PriceRow(itemId, prices[n].date, prices[n].price)] else [])
  }

  /** `pricesToInsert` for the first `count` items of the batch. */
  function PricesToInsert(ids: seq<int>, itemPrices: seq<seq<PriceEntry>>, isDate: string -> bool): seq<PriceRow>
  {
    if ids == [] then []
    else
      var n := |ids| - 1;
      PricesToInsert(ids[..n], itemPrices, isDate) + ValidPrices(ids[n], PricesAt(itemPrices, n), isDate)
  }

  /** The loops of `insertItemsAndPrices` after the items insert answered `insertId`. */
  method InsertPrices(insertId: int, itemCount: nat, itemPrices: seq<seq<PriceEntry>>, isDate: string -> bool)
    returns (insertedIds: seq<int>, pricesToInsert: seq<PriceRow>)
    ensures |insertedIds| == itemCount && forall i :: 0 <= i < itemCount ==> insertedIds[i] == insertId + i
    ensures pricesToInsert == PricesToInsert(insertedIds, itemPrices, isDate)
  {
    insertedIds := [];
    for i := 0 to itemCount
      invariant |insertedIds| == i && forall k :: 0 <= k < i ==> insertedIds[k] == insertId + k
    {
      insertedIds := insertedIds + [insertId + i];
    }
    pricesToInsert := [];
    for i := 0 to |insertedIds|
      invariant pricesToInsert == PricesToInsert(insertedIds[..i], itemPrices, isDate)
    {
      assert insertedIds[..i + 1][..i] == insertedIds[..i];
      var itemId := insertedIds[i];
      var prices := PricesAt(itemPrices, i);
      var kept: seq<PriceRow> := [];
      for j := 0 to |prices|
        invariant kept == ValidPrices(itemId, prices[..j], isDate)
      {
        assert prices[..j + 1][..j] == prices[..j];
        var price := prices[j];
        if isDate(price.date) && IsValidPrice(price.price) {
          kept := kept + [PriceRow(itemId, price.date, price.price)];
        }
      }
      assert prices[..|prices|] == prices;
      pricesToInsert := pricesToInsert + kept;
    }
    assert insertedIds[..|insertedIds|] == insertedIds;
  }

  /** A kept price row carries the item's id and one of its entries that is valid. */
  lemma {:induction false} ValidPriceFrom(itemId: int, prices: seq<PriceEntry>, isDate: string -> bool, k: nat)
    requires k < |ValidPrices(itemId, prices, isDate)|
    ensures var row := ValidPrices(itemId, prices, isDate)[k];
            row.itemId == itemId && isDate(row.date) && IsValidPrice(row.price) && PriceEntry(row.date, row.price) in prices
  {
    var n := |prices| - 1;
    var before := ValidPrices(itemId, prices[..n], isDate);
    var kept := ValidPrices(itemId, prices, isDate);
    assert kept == before + (if isDate(prices[n].date) && IsValidPrice(prices[n].price) then [PriceRow(itemId, prices[n].date, prices[n].price)] else []);
    if k < |before| {
      ValidPriceFrom(itemId, prices[..n], isDate, k);
      assert kept[k] == before[k];
      assert PriceEntry(kept[k].date, kept[k].price) in prices[..n];
    } else {
      assert kept[k] == PriceRow(itemId, prices[n].date, prices[n].price);
    }
  }

  /** Every valid entry of the item is kept. */
  lemma {:induction false} ValidPriceOf(itemId: int, prices: seq<PriceEntry>, isDate: string -> bool, j: nat)
    requires j < |prices| && isDate(prices[j].date) && IsValidPrice(prices[j].price)
    ensures PriceRow(itemId, prices[j].date, prices[j].price) in ValidPrices(itemId, prices, isDate)
  {
    var n := |prices| - 1;
    var before := ValidPrices(itemId, prices[..n], isDate);
    assert ValidPrices(itemId, prices, isDate) ==
           before + (if isDate(prices[n].date) && IsValidPrice(prices[n].price) then [PriceRow(itemId, prices[n].date, prices[n].price)] else []);
    if j < n {
      assert prices[..n][j] == prices[j];
      ValidPriceOf(itemId, prices[..n], isDate, j);
    }
  }

  /** Every price row to insert carries the id of one of the batch's items and one of
      that item's valid prices. */
  lemma {:induction false} InsertedFrom(ids: seq<int>, itemPrices: seq<seq<PriceEntry>>, isDate: string -> bool, k: nat)
    requires k < |PricesToInsert(ids, itemPrices, isDate)|
    ensures var row := PricesToInsert(ids, itemPrices, isDate)[k];
            exists i :: 0 <= i < |ids| && row.itemId == ids[i] && isDate(row.date) && IsValidPrice(row.price) &&
                        PriceEntry(row.date, row.price) in PricesAt(itemPrices, i)
  {
    var n := |ids| - 1;
    var before := PricesToInsert(ids[..n], itemPrices, isDate);
    var last := ValidPrices(ids[n], PricesAt(itemPrices, n), isDate);
    var rows := PricesToInsert(ids, itemPrices, isDate);
    assert rows == before + last;
    if k < |before| {
      InsertedFrom(ids[..n], itemPrices, isDate, k);
      assert rows[k] == before[k];
      var i :| 0 <= i < n && before[k].itemId == ids[..n][i] && isDate(before[k].date) && IsValidPrice(before[k].price) &&
               PriceEntry(before[k].date, before[k].price) in PricesAt(itemPrices, i);
      assert ids[..n][i] == ids[i];
    } else {
      assert rows[k] == last[k - |before|];
      ValidPriceFrom(ids[n], PricesAt(itemPrices, n), isDate, k - |before|);
    }
  }

  /** Every valid price of item `i` is inserted under the item's id. */
  lemma {:induction false} InsertedOf(ids: seq<int>, itemPrices: seq<seq<PriceEntry>>, isDate: string -> bool, i: nat, j: nat)
    requires i < |ids| && j < |PricesAt(itemPrices, i)|
    requires isDate(PricesAt(itemPrices, i)[j].date) && IsValidPrice(PricesAt(itemPrices, i)[j].price)
    ensures var e := PricesAt(itemPrices, i)[j];
            PriceRow(ids[i], e.date, e.price) in PricesToInsert(ids, itemPrices, isDate)
  {
    var n := |ids| - 1;
    var before := PricesToInsert(ids[..n], itemPrices, isDate);
    var last := ValidPrices(ids[n], PricesAt(itemPrices, n), isDate);
    assert PricesToInsert(ids, itemPrices, isDate) == before + last;
    if i < n {
      assert ids[..n][i] == ids[i];
      InsertedOf(ids[..n], itemPrices, isDate, i, j);
    } else {
      ValidPriceOf(ids[n], PricesAt(itemPrices, n), isDate, j);
    }
  }
}
