// The CSV upload route's cell and column helpers: column-name sanitising, column type
// inference (with decimal precision and scale), and the date, number and price
// cleaners applied to cells before they are inserted.

module CsvUpload {
  import opened Strings
  import opened JsNumbers

  // ---------------------------------------------------------------------------
  // Column names

  /** `[a-z0-9_]`. */
  predicate IsColumnChar(c: char)
  {
    IsLowerAscii(c) || IsDigit(c) || c == '_'
  }

  /** `name.replace(/[^a-z0-9_]/g, "_")`. */
  function ReplaceNonColumnChars(name: string): (r: string)
    ensures |r| == |name|
    ensures forall i :: 0 <= i < |r| ==> r[i] == if IsColumnChar(name[i]) then name[i] else '_'
  {
    if name == [] then [] else [if IsColumnChar(name[0]) then name[0] else '_'] + ReplaceNonColumnChars(name[1..])
  }

  /** `sanitizeColumnName`: every character outside `[a-z0-9_]` (upper case included)
      becomes `_`, then `.replace(/^[0-9]/, "_$&")` puts `_` before a leading digit. */
  function SanitizeColumnName(name: string): (r: string)
  {
    var replaced := ReplaceNonColumnChars(name);
    if replaced != [] && IsDigit(replaced[0]) then "_" + replaced else replaced
  }

  /** A valid column name: only `[a-z0-9_]`, and no leading digit. */
  predicate IsColumnName(s: string)
  {
    (forall i :: 0 <= i < |s| ==> IsColumnChar(s[i])) && (s != [] ==> !IsDigit(s[0]))
  }

  /** The sanitised name is a valid column name, keeps every column character in place
      (after the `_` that a leading digit gets), and has one `_` for each other
      character. */
  lemma SanitizeColumnNameSound(name: string)
    ensures var r := SanitizeColumnName(name);
            var shift := if name != [] && IsDigit(name[0]) then 1 else 0;
            IsColumnName(r) && |r| == |name| + shift &&
            (shift == 1 ==> r[0] == '_') &&
            forall i :: 0 <= i < |name| ==> r[i + shift] == if IsColumnChar(name[i]) then name[i] else '_'
  {
  }

  /** A valid column name is left as it is; so sanitising twice is sanitising once. */
  lemma SanitizeColumnNameIdempotent(name: string)
    ensures IsColumnName(name) ==> SanitizeColumnName(name) == name
    ensures SanitizeColumnName(SanitizeColumnName(name)) == SanitizeColumnName(name)
  {
    SanitizeColumnNameSound(name);
    var r := SanitizeColumnName(name);
    assert ReplaceNonColumnChars(r) == r;
    if IsColumnName(name) {
      assert ReplaceNonColumnChars(name) == name;
    }
  }

  /** `getColumnName`: the `"id"` test gives back what it tests, so it is the
      sanitised name in every case. */
  function GetColumnName(header: string): (r: string)
    ensures r == SanitizeColumnName(header)
  {
    var sanitizedName := SanitizeColumnName(header);
    if sanitizedName == "id" then "id" else sanitizedName
  }

  // ---------------------------------------------------------------------------
  // Decimal precision and scale

  /** `value.replace(/^-/, "")`. */
  function DropMinus(value: string): string
  {
    if value != [] && value[0] == '-' then value[1..] else value
  }

  /** `parts[0] || ""`, with `parts = cleaned.split(".")`. */
  function WholePart(value: string): string
  {
    Split(DropMinus(value), '.')[0]
  }

  /** `parts[1] || ""`. */
  function FractionPart(value: string): string
  {
    var parts := Split(DropMinus(value), '.');
    if |parts| > 1 then parts[1] else ""
  }

  function Max(a: nat, b: nat): nat
  {
    if a < b then b else a
  }

  /** The length of the whole part (`whole`) or of the fraction part of `value`. */
  function PartLength(value: string, whole: bool): nat
  {
    if whole then |WholePart(value)| else |FractionPart(value)|
  }

  /** What a value contributes to the maximum: a blank value (`value.trim() === ""`,
      which is `IsBlank` by `TrimEmptyIffBlank`) is skipped, which is the same as
      contributing 0. */
  function Contribution(value: string, whole: bool): nat
  {
    if IsBlank(value) then 0 else PartLength(value, whole)
  }

  function Contributions(values: seq<string>, whole: bool): (r: seq<nat>)
    ensures |r| == |values|
  {
    seq(|values|, k requires 0 <= k < |values| => Contribution(values[k], whole))
  }

  /** The largest number of `ns`, 0 for none. */
  function MaxOf(ns: seq<nat>): nat
  {
    if ns == [] then 0 else Max(MaxOf(ns[..|ns| - 1]), ns[|ns| - 1])
  }

  /** The longest whole part (`whole`) or fraction part among the non-blank values. */
  function MaxPart(values: seq<string>, whole: bool): nat
  {
    MaxOf(Contributions(values, whole))
  }

  /** `inferDecimalPrecisionAndScale`: the scale is the longest fraction part, the
      precision the longest whole part plus the scale. */
  method InferDecimalPrecisionAndScale(values: seq<string>) returns (precision: nat, scale: nat)
    ensures scale == MaxPart(values, false) && precision == MaxPart(values, true) + MaxPart(values, false)
    ensures scale <= precision
  {
    var maxWhole := 0;
    var maxFraction := 0;
    for i := 0 to |values|
      invariant maxWhole == MaxPart(values[..i], true) && maxFraction == MaxPart(values[..i], false)
    {
      ContributionsStep(values, true, i);
      ContributionsStep(values, false, i);
      var value := values[i];
      TrimEmptyIffBlank(value);
      if Trim(value) == "" {
        continue;
      }
      var whole := WholePart(value);
      var fraction := FractionPart(value);
      maxWhole := Max(maxWhole, |whole|);
      maxFraction := Max(maxFraction, |fraction|);
    }
    assert values[..|values|] == values;
    precision := maxWhole + maxFraction;
    scale := maxFraction;
  }

  lemma ContributionsStep(values: seq<string>, whole: bool, i: nat)
    requires i < |values|
    ensures MaxPart(values[..i + 1], whole) == Max(MaxPart(values[..i], whole), Contribution(values[i], whole))
  {
    var ns := Contributions(values[..i + 1], whole);
    assert ns[..i] == Contributions(values[..i], whole);
  }

  /** Every number is at most the maximum. */
  lemma {:induction false} MaxOfBound(ns: seq<nat>, i: nat)
    requires i < |ns|
    ensures ns[i] <= MaxOf(ns)
  {
    var n := |ns| - 1;
    if i < n {
      assert ns[..n][i] == ns[i];
      MaxOfBound(ns[..n], i);
    }
  }

  /** The maximum is 0 or one of the numbers. */
  lemma {:induction false} MaxOfAttained(ns: seq<nat>)
    ensures MaxOf(ns) == 0 || exists i :: 0 <= i < |ns| && ns[i] == MaxOf(ns)
  {
    if ns != [] {
      var n := |ns| - 1;
      MaxOfAttained(ns[..n]);
      if MaxOf(ns) != 0 && MaxOf(ns) == MaxOf(ns[..n]) {
        var i :| 0 <= i < n && ns[..n][i] == MaxOf(ns[..n]);
        assert ns[i] == ns[..n][i];
      }
    }
  }

  /** Every non-blank value's part fits the maximum. */
  lemma MaxPartBound(values: seq<string>, whole: bool, i: nat)
    requires i < |values| && !IsBlank(values[i])
    ensures PartLength(values[i], whole) <= MaxPart(values, whole)
  {
    MaxOfBound(Contributions(values, whole), i);
  }

  /** The maximum is 0 or the part length of some non-blank value. */
  lemma MaxPartAttained(values: seq<string>, whole: bool)
    ensures MaxPart(values, whole) == 0 ||
            exists i :: 0 <= i < |values| && !IsBlank(values[i]) && PartLength(values[i], whole) == MaxPart(values, whole)
  {
    var ns := Contributions(values, whole);
    MaxOfAttained(ns);
    if MaxOf(ns) != 0 {
      var i :| 0 <= i < |ns| && ns[i] == MaxOf(ns);
      assert !IsBlank(values[i]) && PartLength(values[i], whole) == MaxPart(values, whole);
    }
  }

  /** Only blank values: precision and scale are both 0. */
  lemma MaxPartBlank(values: seq<string>, whole: bool)
    requires forall i :: 0 <= i < |values| ==> IsBlank(values[i])
    ensures MaxPart(values, whole) == 0
  {
    var ns := Contributions(values, whole);
    MaxOfAttained(ns);
    assert forall i :: 0 <= i < |ns| ==> ns[i] == 0;
  }

  // ---------------------------------------------------------------------------
  // Column types

  datatype ColumnType = TextColumn | Int | Decimal(precision: nat, scale: nat) | DateTime | Varchar(length: nat)

  /** `/^-?\d+$/`. */
  predicate IsIntText(v: string)
  {
    var d := DropMinus(v);
    d != [] && AllDigits(d)
  }

  /** `/^-?\d+(\.\d+)?$/`. */
  predicate IsDecimalText(v: string)
  {
    var parts := Split(DropMinus(v), '.');
    (|parts| == 1 || |parts| == 2) && forall k :: 0 <= k < |parts| ==> parts[k] != [] && AllDigits(parts[k])
  }

  /** `values.filter((v) => v.trim() !== "")`; `IsBlank(v)` is `Trim(v) == ""` by
      `TrimEmptyIffBlank`. */
  function NonEmptyValues(values: seq<string>): (r: seq<string>)
    ensures |r| <= |values|
    ensures forall k :: 0 <= k < |r| ==> !IsBlank(r[k])
  {
    if values == [] then []
    else
      var n := |values| - 1;
      NonEmptyValues(values[..n]) + (if !IsBlank(values[n]) then [values[n]] else [])
  }

  predicate AllInt(vs: seq<string>)
  {
    forall k :: 0 <= k < |vs| ==> IsIntText(vs[k])
  }

  predicate AllDecimal(vs: seq<string>)
  {
    forall k :: 0 <= k < |vs| ==> IsDecimalText(vs[k])
  }

  predicate AllDates(vs: seq<string>, isDate: string -> bool)
  {
    forall k :: 0 <= k < |vs| ==> isDate(vs[k])
  }

  function MaxLength(values: seq<string>): nat
  {
    if values == [] then 0 else Max(|values[0]|, MaxLength(values[1..]))
  }

  /** The DECIMAL branch: `DECIMAL(max(p, 16), min(s, 4))` for the largest whole-part
      length p plus the largest fraction length s, and that largest fraction length s. */
  function DecimalType(nonEmpty: seq<string>): (t: ColumnType)
    ensures var p := MaxPart(nonEmpty, true) + MaxPart(nonEmpty, false);
            var s := MaxPart(nonEmpty, false);
            t == Decimal(Max(p, 16), if s < 4 then s else 4)
    ensures t.Decimal? && t.precision >= 16 && t.scale <= 4 && t.scale <= MaxPart(nonEmpty, false)
    ensures t.precision >= MaxPart(nonEmpty, true) + MaxPart(nonEmpty, false)
  {
    var precision := MaxPart(nonEmpty, true) + MaxPart(nonEmpty, false);
    var scale := MaxPart(nonEmpty, false);
    Decimal(if precision < 16 then 16 else precision, if scale < 4 then scale else 4)
  }

  /** The fallback branch on the longest value: TEXT over 191 characters, otherwise a
      VARCHAR of that length but at least 50. */
  function StringType(maxLength: nat): (t: ColumnType)
    ensures t == TextColumn <==> maxLength > 191
    ensures maxLength <= 191 ==> t == Varchar(Max(maxLength, 50))
    ensures t.Varchar? ==> 50 <= t.length <= 191 && maxLength <= t.length
  {
    if maxLength > 191 then TextColumn
    else if maxLength > 50 then Varchar(maxLength)
    else Varchar(50)
  }

  /** `inferColumnType` over the non-blank values. */
  function ColumnTypeOf(nonEmpty: seq<string>, isDate: string -> bool): ColumnType
  {
    if nonEmpty == [] then TextColumn
    else if AllInt(nonEmpty) then Int
    else if AllDecimal(nonEmpty) then DecimalType(nonEmpty)
    else if AllDates(nonEmpty, isDate) then DateTime
    else StringType(MaxLength(nonEmpty))
  }

  /** `inferColumnType`: `isDate` stands for `!isNaN(Date.parse(v))`, which is not
      modelled. */
  function InferColumnType(values: seq<string>, isDate: string -> bool): ColumnType
  {
    ColumnTypeOf(NonEmptyValues(values), isDate)
  }

  /** An integer literal is also a decimal one. */
  lemma IntIsDecimal(v: string)
    requires IsIntText(v)
    ensures IsDecimalText(v)
  {
    SplitWithout(DropMinus(v), '.');
  }

  /** Every integer literal is a decimal one, so a column that is not all decimals is
      not all integers either. */
  lemma AllIntIsAllDecimal(vs: seq<string>)
    requires AllInt(vs)
    ensures AllDecimal(vs)
  {
    forall k | 0 <= k < |vs|
      ensures IsDecimalText(vs[k])
    {
      IntIsDecimal(vs[k]);
    }
  }

  /** The inferred type of the non-blank values, case by case: TEXT for none; INT for
      all integers; otherwise `DecimalType` for all decimals; otherwise DATETIME for all
      dates; otherwise `StringType` of the longest value. In the other direction: INT
      exactly when all are integers, a DECIMAL, which has precision at least 16 and
      scale at most 4, only when all are decimals, DATETIME only when all are dates, a
      VARCHAR of 50 to 191 characters that fits the longest value, and TEXT only when
      there are none or the longest is over 191. */
  lemma ColumnTypeOfCases(nonEmpty: seq<string>, isDate: string -> bool)
    ensures var t := ColumnTypeOf(nonEmpty, isDate);
            (nonEmpty == [] ==> t == TextColumn) &&
            (nonEmpty != [] && AllInt(nonEmpty) ==> t == Int) &&
            (nonEmpty != [] && !AllInt(nonEmpty) && AllDecimal(nonEmpty) ==> t == DecimalType(nonEmpty)) &&
            (nonEmpty != [] && !AllDecimal(nonEmpty) && AllDates(nonEmpty, isDate) ==> t == DateTime) &&
            (nonEmpty != [] && !AllDecimal(nonEmpty) && !AllDates(nonEmpty, isDate) ==>
               t == StringType(MaxLength(nonEmpty)))
    ensures var t := ColumnTypeOf(nonEmpty, isDate);
            (t == TextColumn ==> nonEmpty == [] || MaxLength(nonEmpty) > 191) &&
            (t == Int <==> nonEmpty != [] && AllInt(nonEmpty)) &&
            (t.Decimal? ==> t.precision >= 16 && t.scale <= 4 && t.scale <= MaxPart(nonEmpty, false) && AllDecimal(nonEmpty)) &&
            (t == DateTime ==> AllDates(nonEmpty, isDate)) &&
            (t.Varchar? ==> 50 <= t.length <= 191 && MaxLength(nonEmpty) <= t.length)
  {
    if AllInt(nonEmpty) {
      AllIntIsAllDecimal(nonEmpty);
    }
    if nonEmpty != [] && !AllInt(nonEmpty) && AllDecimal(nonEmpty) {
      assert ColumnTypeOf(nonEmpty, isDate) == DecimalType(nonEmpty);
    }
  }

  /** Every non-blank value is kept by the filter. */
  lemma {:induction false} NonEmptyValuesComplete(values: seq<string>, i: nat)
    requires i < |values| && !IsBlank(values[i])
    ensures values[i] in NonEmptyValues(values)
  {
    var n := |values| - 1;
    var kept := NonEmptyValues(values[..n]);
    assert NonEmptyValues(values) == kept + (if !IsBlank(values[n]) then [values[n]] else []);
    if i < n {
      assert values[..n][i] == values[i];
      NonEmptyValuesComplete(values[..n], i);
      assert values[i] in kept;
    }
  }

  /** Every kept value is one of the input values. */
  lemma {:induction false} NonEmptyValuesFrom(values: seq<string>, k: nat)
    requires k < |NonEmptyValues(values)|
    ensures NonEmptyValues(values)[k] in values
  {
    var n := |values| - 1;
    var kept := NonEmptyValues(values[..n]);
    assert NonEmptyValues(values) == kept + (if !IsBlank(values[n]) then [values[n]] else []);
    if k < |kept| {
      NonEmptyValuesFrom(values[..n], k);
      assert kept[k] in values[..n];
    }
  }

  /** No value is longer than the longest. */
  lemma {:induction false} MaxLengthBound(values: seq<string>, i: nat)
    requires i < |values|
    ensures |values[i]| <= MaxLength(values)
  {
    if i > 0 {
      MaxLengthBound(values[1..], i - 1);
    }
  }

  // ---------------------------------------------------------------------------
  // Dates

  /** `/^(\d{4})-(\d{2})-(\d{2})/`. */
  predicate IsoDatePrefix(v: string)
  {
    |v| >= 10 && v[4] == '-' && v[7] == '-' && forall i :: 0 <= i < 10 && i != 4 && i != 7 ==> IsDigit(v[i])
  }

  /** `\d{1,2}` followed by `sep`: the length of the digit group, or `None`. */
  function ShortGroup(v: string, sep: char): (r: Option<nat>)
    ensures r.Some? ==> 1 <= r.value <= 2 && r.value < |v| && v[r.value] == sep && AllDigits(v[..r.value])
  {
    var k := DigitRun(v);
    if 1 <= k <= 2 && k < |v| && v[k] == sep then
      Some(k)
    else None
  }

  /** `padStart(2, "0")`. */
  function PadStart2(d: string): string
  {
    if |d| < 2 then "0" + d else d
  }

  /** The date of `/^(\d{1,2})<sep>(\d{1,2})<sep>(\d{4})/`, as `YYYY-MM-DD 00:00:00`. */
  function DayMonthYear(v: string, sep: char): Option<string>
  {
    match ShortGroup(v, sep)
    case None => None
    case Some(dayLength) =>
      var rest := v[dayLength + 1..];
      match ShortGroup(rest, sep)
      case None => None
      case Some(monthLength) =>
        DateFromGroups(rest[monthLength + 1..], rest[..monthLength], v[..dayLength])
  }

  /** `\d{4}` at the start of `yearAt`, then the text built from the three groups. */
  function DateFromGroups(yearAt: string, month: string, day: string): Option<string>
  {
    if |yearAt| >= 4 && AllDigits(yearAt[..4]) then
      Some(yearAt[..4] + "-" + PadStart2(month) + "-" + PadStart2(day) + " 00:00:00")
    else None
  }

  /** `\N`. */
  const NullMarker: string := "\\N"

  /** `value.split(".")[0]`. */
  function BeforeDot(v: string): (r: string)
    ensures '.' !in r && StartsWith(v, r)
  {
    var r := Split(v, '.')[0];
    JoinSplit(v, '.');
    SplitPrefix(v, '.');
    r
  }

  lemma SplitPrefix(s: string, c: char)
    ensures StartsWith(s, Split(s, c)[0])
  {
    match IndexOfFrom(s, c, 0)
    case None =>
    case Some(k) =>
  }

  /** `sanitizeDate`: `None` is `null`. */
  function SanitizeDate(value: string): Option<string>
  {
    if value == "" || Trim(value) == "" || Trim(value) == NullMarker || ToUpper(value) == NullMarker then None
    else if IsoDatePrefix(value) then Some(BeforeDot(value))
    else match DayMonthYear(value, '/')
      case Some(d) => Some(d)
      case None => DayMonthYear(value, '-')
  }

  /** Blank input, `\N` and `\n` give `null`. */
  lemma SanitizeDateNulls(value: string)
    ensures Trim(value) == "" || Trim(value) == NullMarker || value == "\\n" ==> SanitizeDate(value).None?
  {
    if value == "\\n" {
      assert ToUpper(value) == [ToUpperChar('\\'), ToUpperChar('n')];
    }
  }

  /** A value that is not null-like, does not start `YYYY-MM-DD` and matches neither
      day-month-year form gives `null`. */
  lemma SanitizeDateOtherwiseNull(value: string)
    requires !IsoDatePrefix(value)
    requires DayMonthYear(value, '/').None? && DayMonthYear(value, '-').None?
    ensures SanitizeDate(value).None?
  {
  }

  /** A value starting `YYYY-MM-DD` is kept up to its first `.`, so fractional seconds
      are dropped and the date itself is untouched. */
  lemma SanitizeIsoDate(value: string)
    requires IsoDatePrefix(value) && !IsSpace(value[0])
    ensures SanitizeDate(value).Some?
    ensures var r := SanitizeDate(value).value;
            StartsWith(value, r) && '.' !in r && IsoDatePrefix(r)
  {
    assert Trim(value) != "" && Trim(value) != NullMarker by {
      TrimLeftKeeps(value);
    }
    assert ToUpper(value) != NullMarker by {
      assert |ToUpper(value)| == |value|;
    }
    BeforeDotKeeps(value, 10);
  }

  lemma TrimLeftKeeps(value: string)
    requires value != [] && !IsSpace(value[0])
    ensures Trim(value) != "" && |Trim(value)| >= 1
  {
    assert TrimLeft(value) == value;
    TrimEmptyIffBlank(value);
  }

  lemma BeforeDotKeeps(v: string, k: nat)
    requires k <= |v| && forall i :: 0 <= i < k ==> v[i] != '.'
    ensures |BeforeDot(v)| >= k && BeforeDot(v)[..k] == v[..k]
  {
    match IndexOfFrom(v, '.', 0)
    case None =>
    case Some(j) =>
  }

  /** `D/M/YYYY` and `D-M-YYYY` (one or two digits for day and month) come out as
      `YYYY-MM-DD 00:00:00` with day and month padded to two digits. */
  lemma SanitizeDayMonthYear(day: string, month: string, year: string, sep: char, rest: string)
    requires sep == '/' || sep == '-'
    requires 1 <= |day| <= 2 && 1 <= |month| <= 2 && |year| == 4
    requires AllDigits(day) && AllDigits(month) && AllDigits(year)
    ensures SanitizeDate(day + ([sep] + (month + ([sep] + (year + rest))))) ==
            Some(year + "-" + PadStart2(month) + "-" + PadStart2(day) + " 00:00:00")
  {
    var value := day + ([sep] + (month + ([sep] + (year + rest))));
    DayMonthYearOf(day, month, year, sep, rest);
    assert value[0] == day[0] && value[|day|] == sep;
    DigitStartNotNull(value);
    NotIso(value, |day|);
    if sep == '-' {
      OtherSeparator(value, '-', '/');
    }
  }

  /** The digit group ends at one separator only. */
  lemma OtherSeparator(v: string, sep: char, other: char)
    requires ShortGroup(v, sep).Some? && other != sep
    ensures ShortGroup(v, other).None?
  {
  }

  /** The regex match of `D<sep>M<sep>YYYY` and the text it builds. */
  lemma DayMonthYearOf(day: string, month: string, year: string, sep: char, rest: string)
    requires !IsDigit(sep)
    requires 1 <= |day| <= 2 && 1 <= |month| <= 2 && |year| == 4
    requires AllDigits(day) && AllDigits(month) && AllDigits(year)
    ensures DayMonthYear(day + ([sep] + (month + ([sep] + (year + rest)))), sep) ==
            Some(year + "-" + PadStart2(month) + "-" + PadStart2(day) + " 00:00:00")
  {
    var afterMonth := year + rest;
    var afterDay := month + ([sep] + afterMonth);
    var value := day + ([sep] + afterDay);
    GroupLength(day, sep, afterDay);
    GroupLength(month, sep, afterMonth);
    assert afterMonth[..4] == year;
    DayMonthYearParts(value, sep, |day|, afterDay, |month|, afterMonth);
  }

  /** Both short groups found, and four digits after them: the text built from the parts. */
  lemma DayMonthYearParts(v: string, sep: char, dayLength: nat, afterDay: string, monthLength: nat, afterMonth: string)
    requires ShortGroup(v, sep) == Some(dayLength) && v[dayLength + 1..] == afterDay
    requires ShortGroup(afterDay, sep) == Some(monthLength) && afterDay[monthLength + 1..] == afterMonth
    ensures DayMonthYear(v, sep) == DateFromGroups(afterMonth, afterDay[..monthLength], v[..dayLength])
  {
  }

  /** A value whose first characters are not `YYYY-MM-DD`. */
  lemma NotIso(value: string, k: nat)
    requires k < |value| && k < 4 && !IsDigit(value[k])
    ensures !IsoDatePrefix(value)
  {
  }

  /** A value starting with a digit passes the `null` tests. */
  lemma DigitStartNotNull(value: string)
    requires value != [] && IsDigit(value[0])
    ensures !(value == "" || Trim(value) == "" || Trim(value) == NullMarker || ToUpper(value) == NullMarker)
  {
    TrimLeftKeeps(value);
    TrimDigitStart(value);
    assert ToUpper(value)[0] == ToUpperChar(value[0]);
  }

  lemma TrimDigitStart(value: string)
    requires value != [] && IsDigit(value[0])
    ensures Trim(value) != NullMarker
  {
    assert TrimLeft(value) == value;
    var t := TrimRight(value);
    assert Trim(value) == t;
    assert t == [] || t[0] == value[0];
  }

  lemma GroupLength(d: string, sep: char, rest: string)
    requires 1 <= |d| <= 2 && AllDigits(d) && !IsDigit(sep)
    ensures var v := d + ([sep] + rest);
            ShortGroup(v, sep) == Some(|d|) && v[..|d|] == d && v[|d| + 1..] == rest
  {
    var v := d + ([sep] + rest);
    assert v[..|d|] == d && v[|d|] == sep && v[|d| + 1..] == rest;
    DigitRunOfDigits(v, |d|);
    assert DigitRun(v) == |d|;
  }

  // ---------------------------------------------------------------------------
  // Numbers

  /** The characters `sanitizeNumeric` deletes. */
  const MoneySymbols: set<char> := {'$', '€', '£', ','}

  /** A numeric cell as bound into the insert: SQL `null`, or a number (`None` is NaN). */
  datatype CellValue = Null | Number(number: Option<real>)

  /** `cleaned.replace(",", ".")`: the first comma, if any, becomes a dot. */
  function ReplaceFirstComma(s: string): string
  {
    if s == [] then []
    else if s[0] == ',' then "." + s[1..]
    else [s[0]] + ReplaceFirstComma(s[1..])
  }

  /** `sanitizeNumeric(value, isDecimal)`. */
  function SanitizeNumeric(value: string, isDecimal: bool): CellValue
  {
    if value == "" || Trim(value) == "" then Null
    else ParseCleaned(Trim(RemoveChars(value, MoneySymbols)), isDecimal)
  }

  /** The number read from the cleaned text: `parseFloat` after the comma replacement
      for a decimal column, `parseInt` otherwise. */
  function ParseCleaned(cleaned: string, isDecimal: bool): CellValue
  {
    if isDecimal then Number(ParseFloat(ReplaceFirstComma(cleaned)))
    else Number(match ParseInt(cleaned) case Some(n) => Some(n as real) case None => None)
  }

  lemma {:induction false} ReplaceFirstCommaWithout(s: string)
    requires ',' !in s
    ensures ReplaceFirstComma(s) == s
  {
    if s != [] {
      ReplaceFirstCommaWithout(s[1..]);
    }
  }

  lemma {:induction false} RemoveCharsWithout(s: string, cs: set<char>)
    requires forall i :: 0 <= i < |s| ==> s[i] !in cs
    ensures RemoveChars(s, cs) == s
  {
    if s != [] {
      RemoveCharsWithout(s[1..], cs);
    }
  }

  lemma TrimSubsequence(s: string)
    ensures forall x :: x in Trim(s) ==> x in s
  {
    var l := TrimLeft(s);
    assert forall x :: x in TrimRight(l) ==> x in l;
  }

  /** Blank input is `null`. Otherwise currency signs and every comma are gone before
      parsing, so the comma-to-dot replacement for decimals never finds a comma, and
      cleaning the input first changes nothing. */
  lemma SanitizeNumericSound(value: string, isDecimal: bool)
    ensures Trim(value) == "" ==> SanitizeNumeric(value, isDecimal) == Null
    ensures var cleaned := Trim(RemoveChars(value, MoneySymbols));
            Trim(value) != "" ==>
              ',' !in cleaned && ReplaceFirstComma(cleaned) == cleaned &&
              (cleaned != "" ==> SanitizeNumeric(cleaned, isDecimal) == SanitizeNumeric(value, isDecimal))
  {
    if Trim(value) != "" {
      var cleaned := Trim(RemoveChars(value, MoneySymbols));
      CleanedWithoutMoney(value);
      ReplaceFirstCommaWithout(cleaned);
      if cleaned != "" {
        CleaningAgainKeeps(value, cleaned, isDecimal);
      }
    }
  }

  /** No currency sign and no comma survives the cleaning. */
  lemma CleanedWithoutMoney(value: string)
    ensures var cleaned := Trim(RemoveChars(value, MoneySymbols));
            (forall i :: 0 <= i < |cleaned| ==> cleaned[i] !in MoneySymbols) && ',' !in cleaned
  {
    var removed := RemoveChars(value, MoneySymbols);
    var cleaned := Trim(removed);
    RemoveCharsSound(value, MoneySymbols);
    TrimSubsequence(removed);
    assert forall i :: 0 <= i < |cleaned| ==> cleaned[i] !in MoneySymbols by {
      assert forall i :: 0 <= i < |cleaned| ==> cleaned[i] in cleaned;
    }
  }

  /** Sanitizing the cleaned text gives what sanitizing the original gave. */
  lemma CleaningAgainKeeps(value: string, cleaned: string, isDecimal: bool)
    requires Trim(value) != "" && cleaned == Trim(RemoveChars(value, MoneySymbols)) && cleaned != ""
    requires forall i :: 0 <= i < |cleaned| ==> cleaned[i] !in MoneySymbols
    ensures SanitizeNumeric(cleaned, isDecimal) == SanitizeNumeric(value, isDecimal)
  {
    RemoveCharsWithout(cleaned, MoneySymbols);
    TrimOfTrimmed(cleaned);
  }

  // ---------------------------------------------------------------------------
  // Prices

  /** `value.split(".").slice(0, -1).join("") + "." + value.split(".").pop()`. */
  function CleanPrice(value: string): string
  {
    var parts := Split(value, '.');
    Concat(parts[..|parts| - 1]) + "." + parts[|parts| - 1]
  }

  /** `join("")`. */
  function Concat(parts: seq<string>): string
  {
    if parts == [] then [] else parts[0] + Concat(parts[1..])
  }

  lemma {:induction false} ConcatNoDot(parts: seq<string>)
    requires forall k :: 0 <= k < |parts| ==> '.' !in parts[k]
    ensures '.' !in Concat(parts)
  {
    if parts != [] {
      ConcatNoDot(parts[1..]);
    }
  }

  /** The cleaned price has exactly one dot: the part after the last dot of the input
      stays after it, every earlier dot is dropped. Without a dot the value becomes
      `"." + value`. */
  lemma CleanPriceSound(value: string)
    ensures var parts := Split(value, '.');
            var r := CleanPrice(value);
            var before := Concat(parts[..|parts| - 1]);
            r == before + "." + parts[|parts| - 1] && '.' !in before && '.' !in parts[|parts| - 1]
    ensures '.' !in value ==> CleanPrice(value) == "." + value
  {
    var parts := Split(value, '.');
    ConcatNoDot(parts[..|parts| - 1]);
    if '.' !in value {
      SplitWithout(value, '.');
      assert parts[..0] == [];
    }
  }

  /** `a.b.c` (thousands separated by dots, as in `1.234.56`) becomes `ab.c`. */
  lemma CleanPriceThousands(a: string, b: string, c: string)
    requires '.' !in a && '.' !in b && '.' !in c
    ensures CleanPrice(a + "." + b + "." + c) == a + b + "." + c
  {
    ThreeDotted(a, b, c);
    ThreeParts(a + "." + b + "." + c, a, b, c);
  }

  /** Two dots between three dot-free pieces split into those pieces. */
  lemma ThreeDotted(a: string, b: string, c: string)
    requires '.' !in a && '.' !in b && '.' !in c
    ensures Split(a + "." + b + "." + c, '.') == [a, b, c]
  {
    var tail := b + ['.'] + c;
    assert a + "." + b + "." + c == a + ['.'] + tail;
    SplitAtFirst(a, '.', tail);
    SplitAtFirst(b, '.', c);
    SplitWithout(c, '.');
  }

  lemma ThreeParts(v: string, a: string, b: string, c: string)
    requires Split(v, '.') == [a, b, c]
    ensures CleanPrice(v) == a + b + "." + c
  {
    assert [a, b, c][..2] == [a, b];
    assert Concat([b]) == b;
  }
}
