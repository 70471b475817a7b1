# dpo core logic in Dafny

The dpo repository is a Next.js application for construction budgets
("presupuestos"), measurements of work done ("mediciones") and price
catalogues, backed by Prisma and Supabase, plus a few Python and Node
scripts that migrate old MySQL dumps into the new schema. This project
models its computational core and proves properties of that model:

- the dump normaliser `test/script2.py` (value-list extraction, the
  right-parity comma split, field cleanup, `clean_value`, the deduplicated
  entity, price and labour-rate statements, and the script layout), and the
  catalogue script `test/script.py`;
- the SQL statement splitter and the CSV import helpers of the upload routes;
- the month-column migration script;
- budget arithmetic (totals, rubros, running IACUM) and the update rules of
  the budget and measurement hooks, the budget context and the measurement
  editor;
- table trees (flattening, sorting, id collection, subtree removal and
  selection), breadcrumbs, the onboarding, obra and tour state machines,
  the query cache and the request validators;
- the item routes (sort whitelists, search escaping, grouping), the Prisma
  schema viewer's parser and the sidebar's directory-to-navigation
  transformation.

Each source file of the core is one Dafny module (`Strings` holds shared
character and string helpers). Pure code is modelled by functions; loops
and state updates are methods proved against those functions, and objects
whose fields change are classes. Numbers are mathematical: amounts are
`real`; JavaScript `Number` parsing and Python `float()` are modelled by a
decimal-numeral recogniser (`JsNumbers`).

## Model

| member | source | states |
|---|---|---|
| SqlDump.FindAll | test/script2.py:7 | the statements found lie inside the dump, come in source order and do not overlap |
| SqlDump.FindAllSound | test/script2.py:7 | every reported statement is a match of `INSERT INTO.*?VALUES\s*\((.*?)\);` at its start |
| SqlDump.FindAllComplete | test/script2.py:7 | no statement is skipped: every position where the pattern matches starts, or lies inside, a reported match |
| SqlDump.ExtractStopsAtFirstClose | test/script2.py:7 | the lazy capture ends at the first `);`, so a captured value list never contains `);` |
| SqlDump.ExtractSingle | test/script2.py:7 | a dump holding one `INSERT INTO t VALUES (x);` yields exactly the value list x |
| SqlDump.SplitValuesCount | test/script2.py:9 | the number of fields is one more than the number of commas followed by an even number of quotes |
| SqlDump.RightParityDiffersFromLeftScan | test/script2.py:9 | the quote parity is counted to the right of the comma: `a',b` splits, although a left-to-right scan is inside a quote there |
| SqlDump.SplitJoinRoundTrip | test/script2.py:9 | commas inside balanced quotes never split: splitting a list of well-formed fields joined by `, ` gives the fields back |
| SqlDump.OneFieldNoSplit | test/script2.py:9 | a single well-formed field, commas and all, is not split |
| SqlDump.UndoubleDouble | test/script2.py:10 | doubling every quote loses nothing: reading `''` back as `'` restores the text |
| SqlDump.CleanFieldDoublesQuote | test/script2.py:10 | an inner quote, as in O'Brien, is doubled exactly once |
| SqlDump.ParseSqlFile | test/script2.py:3-12 | one row of cleaned fields per matched statement, in source order |
| SqlDump.ParseRowOfWrittenRow | test/script2.py:9-10 | a row written as a dump writes it is read back field by field, quoted fields without their quotes |
| SqlDump.StripMoneyClean | test/script2.py:17 | after `re.sub(r'[$\s,]', '', v)` no dollar sign, comma or whitespace is left and nothing was added |
| SqlDump.CleanValue | test/script2.py:14-21 | the result is None exactly for `NULL` and the empty field |
| SqlDump.CleanValueIdempotent | test/script2.py:14-21 | a field that stays text is already clean: cleaning the text again gives the same text |
| SqlDump.ColumnDate | test/script2.py:48-49 | every column from 4 on is dated in a valid month of 2009 or later |
| SqlDump.ColumnDateInverse | test/script2.py:48-50 | columns from 4 on and months from January 2009 on determine each other |
| SqlDump.PairDate | test/script2.py:77-78 | every labour column from 3 on is dated in a valid month of 2015 or later |
| SqlDump.PairDateByIndex | test/script2.py:77-78 | the labour date depends only on the pair index (i-3) div 2, and the first column of the pair is recovered from it |
| SqlDump.PairColumnInverse | test/script2.py:77-79 | every month from January 2015 on is the date of exactly the pair column computed from it |
| SqlDump.DateExamples | test/script2.py:48-50 | offset 0 is 2009-01-01, offset 11 2009-12-01, offset 12 2010-01-01; pair 0 is 2015-01-01 and pair 23 2016-12-01 |
| SqlDump.CollectFacts | test/script2.py:45-51 | the fact loop of one row produces exactly the row's facts as specified by RowFacts |
| SqlDump.RowFactsSound | test/script2.py:45-51 | every fact carries its code, a cell value that is not None and the date of that cell's column |
| SqlDump.RowFactsOrdered | test/script2.py:45 | facts come in strictly increasing column order |
| SqlDump.RowFactsComplete | test/script2.py:46-47 | every cell from column 4 on that is not None gives a fact |
| SqlDump.RowFactsAbout | test/script2.py:51 | all facts of a row are value upserts for the row's code |
| SqlDump.TransformEntityRows | test/script2.py:33-51 | the row loop produces exactly the entity statements as specified by EntityStmts |
| SqlDump.EntityRow | test/script2.py:34-51 | one turn of the row loop: a row with a new valid code contributes its insert and its facts and marks the code seen, any other row contributes nothing |
| SqlDump.TransformEntities | test/script2.py:28-53 | transform_entities is the entity statements of the parsed dump |
| SqlDump.EntityInsertsAreFirstSeenCodes | test/script2.py:34-43 | exactly one `INSERT IGNORE` per distinct valid code, in first-seen order |
| SqlDump.EntityStmtsForCode | test/script2.py:41-51 | the statements about a code are its insert followed by the facts of the first row with that code; later rows with the code add nothing |
| SqlDump.CollectPairs | test/script2.py:72-82 | the pair loop of one row produces exactly the row's labour pairs as specified by RowPairs |
| SqlDump.RowPairsSound | test/script2.py:72-82 | every pair carries the worker, two adjacent cells that are not None, and the date of its first column |
| SqlDump.RowPairsOrdered | test/script2.py:72 | pairs come in strictly increasing column order |
| SqlDump.RowPairsComplete | test/script2.py:73-76 | every odd column whose cell and next cell are both not None gives a pair, whatever text they hold |
| SqlDump.PairsAbout | test/script2.py:80-82 | all pairs of a row are labour upserts for the row's worker |
| SqlDump.TransformJornalRows | test/script2.py:60-82 | the row loop produces exactly the labour statements as specified by JornalStmts |
| SqlDump.TransformJornales | test/script2.py:55-84 | transform_jornales is the labour statements of the parsed dump |
| SqlDump.JornalInsertsAreFirstSeenWorkers | test/script2.py:61-70 | one `jornales` insert per distinct worker name of rows with at least 3 fields, in first-seen order |
| SqlDump.JornalStmtsForWorker | test/script2.py:68-82 | the statements about a worker are its insert followed by the pairs of the first row naming it |
| SqlDump.AssembleScript | test/script2.py:94-104 | the script starts with `BEGIN;` and the materials header, ends with `COMMIT;`, and the materials statements follow the header |
| SqlDump.TransformAll | test/script2.py:86-104 | the materials, indices, items and labour statements, in that order, with each table's names |
| CatalogScript.TagId | test/script.py:24-25 | a tag name has an id exactly when it is a key of the tags dict |
| CatalogScript.Classify | test/script.py:13-22 | blank rows are skipped, a non-blank row with fewer than two cells is the IndexError of `row[1]`, a row whose stripped unit is empty or missing is a header named by its stripped second cell, any other row an element with its stripped code, name and unit |
| CatalogScript.ProcessRows | test/script.py:11-30 | the reading loop computes the catalog specified by Process, or fails where the script raises |
| CatalogScript.ProcessFailed | test/script.py:17-18 | once a row raised, the whole run fails |
| CatalogScript.StepKeepsWellFormed | test/script.py:22-30 | each row keeps the invariant: ids are 1, 2, … in insertion order, names are distinct, and every element's tag is a non-empty known tag |
| CatalogScript.ProcessWellFormed | test/script.py:11-30 | the catalog the loop ends with satisfies that invariant |
| CatalogScript.BlankAndShortRows | test/script.py:13-19 | a blank row changes nothing; a non-blank row with one cell is an error |
| CatalogScript.HeaderRow | test/script.py:22-26 | a header becomes the current tag; a new name gets id = number of tags + 1, a repeated name keeps its id and the dict; elements are untouched |
| CatalogScript.ElementRow | test/script.py:29-30 | an element row is appended with the current tag when that tag is truthy, and dropped before any header or after an empty-named header |
| CatalogScript.TagValues | test/script.py:70 | one `(id, name)` tuple per tag, in first-seen order |
| CatalogScript.ElementValues | test/script.py:76 | one `(name, unit)` tuple per element, in order |
| CatalogScript.Mappings | test/script.py:82-84 | the i-th element is linked as `(i + 1, id of its tag)` |
| CatalogScript.OutputShape | test/script.py:70-84 | in a finished run the tag tuples carry ids 1, 2, …, and each element's link pairs its position + 1 with the id written for its tag |
| SqlUpload.Flush | app/api/upload-sql/route.ts:61-65 | a finished statement is kept, trimmed, exactly when it is not blank |
| SqlUpload.Step | app/api/upload-sql/route.ts:38-96 | each pass reads one or two characters, and only an unquoted `;` ends a statement, contributing no text |
| SqlUpload.SplitSQLStatements | app/api/upload-sql/route.ts:31-105 | the character loop computes the statements specified by the scanner as written |
| SqlUpload.StatementsTrimmed | app/api/upload-sql/route.ts:60-65 | every returned statement, including trailing text without a final `;`, is trimmed and non-empty |
| SqlUpload.StepModes | app/api/upload-sql/route.ts:71-79 | how a doubled quote is copied changes no quote state and no statement end |
| SqlUpload.StatementCount | app/api/upload-sql/route.ts:37-104 | at most one statement more than there are unquoted semicolons, and those are among the text's semicolons |
| SqlUpload.UnquotedSplitsAtSemicolons | app/api/upload-sql/route.ts:51-68 | text without quotes is cut at every semicolon into its trimmed non-blank pieces |
| SqlUpload.InsideBackslash | app/api/upload-sql/route.ts:42-49 | inside a string a backslash and the next character, whatever it is, are copied as they are and the string stays open |
| SqlUpload.InsideLiteral | app/api/upload-sql/route.ts:42-96 | inside a string its body (plain characters, doubled quotes, backslash escapes, the quote of the other kind, `;`) stays in the string, which ends at its closing quote |
| SqlUpload.QuotedLiteral | app/api/upload-sql/route.ts:42-96 | a semicolon inside a quoted string, escapes included, never ends a statement: the whole string joins the statement under way |
| SqlUpload.CollectedKept | app/api/upload-sql/route.ts:73-75 | with both quotes of a pair kept, the collected body is the body as written |
| SqlUpload.DoubledQuoteCollapses | app/api/upload-sql/route.ts:73-75 | as written, a doubled quote reaches the statement as a single quote, so `'it''s'` becomes `'it's'`, which no longer closes |
| SqlUpload.DoubledQuoteKept | app/api/upload-sql/route.ts:73-75 | with both quotes copied, a quoted string, backslash escapes included, reaches the statement exactly as the dump wrote it |
| SqlUpload.ExecutableStatements | app/api/upload-sql/route.ts:189-195 | only CREATE TABLE and INSERT INTO statements of the list are sent |
| SqlUpload.ExecutableExactly | app/api/upload-sql/route.ts:189-195 | a statement is sent exactly when it is in the list, not blank, and its lower-cased text contains `create table` or `insert into` |
| SqlUpload.Excerpt | app/api/upload-sql/route.ts:201 | the reported excerpt is at most 100 characters followed by `...` |
| SqlUpload.ExecuteStatements | app/api/upload-sql/route.ts:189-211 | the execution loop produces exactly the reports specified by Reports |
| SqlUpload.ReportsMatch | app/api/upload-sql/route.ts:195-209 | one report per sent statement, in order, successful exactly when the database accepted the statement with `;` appended |
| CsvUpload.ReplaceNonColumnChars | app/api/wip/upload-csv/route.ts:11 | every character outside `[a-z0-9_]`, upper-case letters included, becomes `_`; the others stay |
| CsvUpload.SanitizeColumnNameSound | app/api/wip/upload-csv/route.ts:8-12 | the result uses only `[a-z0-9_]`, never starts with a digit, and is the replaced name with `_` in front exactly when the name starts with a digit |
| CsvUpload.SanitizeColumnNameIdempotent | app/api/wip/upload-csv/route.ts:8-12 | a valid column name is left unchanged, so sanitising twice is sanitising once |
| CsvUpload.GetColumnName | app/api/wip/upload-csv/route.ts:14-17 | the `"id"` test returns what it tests, so the column name is always the sanitised header |
| CsvUpload.InferDecimalPrecisionAndScale | app/api/wip/upload-csv/route.ts:19-38 | the scale is the longest fraction part and the precision the longest whole part plus the scale, over the non-blank values without a leading `-`; scale ≤ precision |
| CsvUpload.MaxPartBound | app/api/wip/upload-csv/route.ts:26-33 | every non-blank value's whole or fraction part fits the maximum |
| CsvUpload.MaxPartAttained | app/api/wip/upload-csv/route.ts:32-33 | the maximum is 0 or the part length of some non-blank value |
| CsvUpload.MaxPartBlank | app/api/wip/upload-csv/route.ts:23-27 | only blank values (and so the empty input) give precision 0 and scale 0 |
| CsvUpload.NonEmptyValues | app/api/wip/upload-csv/route.ts:41 | the kept values are all non-blank |
| CsvUpload.NonEmptyValuesComplete | app/api/wip/upload-csv/route.ts:41 | every non-blank value is kept |
| CsvUpload.NonEmptyValuesFrom | app/api/wip/upload-csv/route.ts:41 | every kept value is an input value |
| CsvUpload.DecimalType | app/api/wip/upload-csv/route.ts:49-52 | exactly `DECIMAL(max(p,16),min(s,4))` with p the largest whole part plus the largest fraction and s the largest fraction, so precision at least 16 and scale at most 4 |
| CsvUpload.StringType | app/api/wip/upload-csv/route.ts:57-64 | TEXT exactly when the longest value exceeds 191; otherwise exactly `VARCHAR(max(n,50))` for the longest length n |
| CsvUpload.IntIsDecimal | app/api/wip/upload-csv/route.ts:45-48 | an integer literal also matches the decimal pattern, so the INT case comes first |
| CsvUpload.AllIntIsAllDecimal | app/api/wip/upload-csv/route.ts:45-48 | an all-integer column is an all-decimal one |
| CsvUpload.ColumnTypeOfCases | app/api/wip/upload-csv/route.ts:40-65 | each case in the source's order: TEXT for no non-blank value, INT for all integers, `DecimalType` for all decimals, DATETIME for all dates, `StringType` of the longest value otherwise; and conversely INT exactly for all integers, DECIMAL only for all decimals, DATETIME only for all dates, TEXT only for none or a value over 191 characters |
| CsvUpload.ShortGroup | app/api/wip/upload-csv/route.ts:130 | `\d{1,2}` followed by the separator: one or two digits, then the separator |
| CsvUpload.BeforeDot | app/api/wip/upload-csv/route.ts:126 | `split(".")[0]` is a prefix of the value without a dot |
| CsvUpload.SanitizeDateNulls | app/api/wip/upload-csv/route.ts:113-120 | blank input and `\N` give null |
| CsvUpload.SanitizeIsoDate | app/api/wip/upload-csv/route.ts:124-127 | a value starting `YYYY-MM-DD` is kept up to its first `.`, the date itself untouched |
| CsvUpload.SanitizeDayMonthYear | app/api/wip/upload-csv/route.ts:130-147 | `D/M/YYYY` and `D-M-YYYY` become `YYYY-MM-DD 00:00:00` with day and month padded to two digits |
| CsvUpload.SanitizeDateOtherwiseNull | app/api/wip/upload-csv/route.ts:148-155 | a value matching none of the three date forms (and not null-like) gives null |
| CsvUpload.NotIso | app/api/wip/upload-csv/route.ts:124 | a value with a non-digit among its first four characters has no ISO date prefix |
| CsvUpload.SanitizeNumericSound | app/api/wip/upload-csv/route.ts:223-237 | blank input is null; otherwise every `$ € £ ,` is removed and the rest trimmed, after which the comma replacement has nothing left to do |
| CsvUpload.CleanPriceSound | app/api/wip/upload-csv/route.ts:340-344 | only the last `.` is kept, with every piece before it joined; a value without a dot becomes `"." + value` |
| CsvUpload.CleanPriceThousands | app/api/wip/upload-csv/route.ts:340-344 | `a.b.c` becomes `ab.c` |
| Migration.BuildMonthToDate | boludecesback/test222/migrate_script.js:36-48 | the nested loops build exactly the month-column map specified by MonthToDate |
| Migration.ColumnNameInjective | boludecesback/test222/migrate_script.js:39-41 | different (year, month) pairs of 2009..2025 give different column names, so no assignment overwrites another |
| Migration.SlotKeysDistinct | boludecesback/test222/migrate_script.js:38-44 | the 204 assignments write 204 distinct keys |
| Migration.MonthToDateSound | boludecesback/test222/migrate_script.js:21-48 | the map has 204 keys and sends `abbr-YY` to `YYYY-MM-01` for every month of every year from 2009 to 2025 |
| Migration.MonthToDateKeys | boludecesback/test222/migrate_script.js:38-44 | every key of the map is `abbr-YY` for some month and some year from 2009 to 2025 |
| Migration.MonthToDateEnds | boludecesback/test222/migrate_script.js:20-48 | `ene-09` maps to `2009-01-01` and `dic-25` to `2025-12-01` |
| Migration.FirstEntry | boludecesback/test222/migrate_script.js:56 | a property read finds the first entry with the column name, and none when the row lacks it |
| Migration.IsCategoryRowSound | boludecesback/test222/migrate_script.js:54-62 | false without a unit column; otherwise true exactly when the unit value is missing, null or blank after trim |
| Migration.MissingColumns | boludecesback/test222/migrate_script.js:76-81 | only required columns that the table lacks are reported, and a missing item-name or code column is always reported |
| Migration.Capitalize | boludecesback/test222/migrate_script.js:102 | the first character is upper-cased and the rest kept |
| Migration.Classify | boludecesback/test222/migrate_script.js:113-181 | a row is a category row exactly when isCategoryRow says so and it has an item-name cell; an item row has a non-empty name and the row's month prices; a row throws only when it lacks a configured cell, and an item row has every configured cell |
| Migration.OptionalText | boludecesback/test222/migrate_script.js:142-147 | `(col && row[col] !== null) ? row[col].toString().trim() : null`: a value exactly when the column name is truthy and its cell not null, and then the trimmed cell; a `null` or `""` column name gives `null` |
| Migration.ItemRowFields | boludecesback/test222/migrate_script.js:126-149 | an item row carries the trimmed name of a non-null name cell; `cod` is its cell's text when `codCol` is given and the cell not null, else `""`; `unid` and `publicar` are their trimmed cells exactly when the column name is truthy and the cell not null, else `null` |
| Migration.ThrowsExactly | boludecesback/test222/migrate_script.js:116-147 | a row without an item-name cell throws on `toString` unless skipped first for a missing `codCol`; a row with every configured cell never throws |
| Migration.Kinds | boludecesback/test222/migrate_script.js:112-113 | one kind per row, in order |
| Migration.FirstThrown | boludecesback/test222/migrate_script.js:112-147 | the first row that throws, or none when no row does |
| Migration.MigrateRows | boludecesback/test222/migrate_script.js:65-197 | the loop computes the outcome specified by MigrateTable: the table skipped for a missing required column, the TypeError of the first row lacking a cell it reads, or the batches |
| Migration.MigrateKinds | boludecesback/test222/migrate_script.js:113-181 | the `for (const row of rows)` loop stops with the TypeError of the first row that throws, and otherwise ends with the batches of every row run in order |
| Migration.CompleteRowsMigrate | boludecesback/test222/migrate_script.js:76-147 | when the required columns exist and every row holds its configured cells, as the rows of `SELECT *` do, the table migrates without a TypeError |
| Migration.LastCategory | boludecesback/test222/migrate_script.js:115-120 | the index of the most recent category row, or none when there is none |
| Migration.RunSound | boludecesback/test222/migrate_script.js:112-189 | the loop keeps one price list per item, and the category in effect is the most recent category row's name |
| Migration.RowEffect | boludecesback/test222/migrate_script.js:115-181 | an item row appends one item, carrying the category in effect, and its price list; category rows and skipped rows add nothing |
| Migration.ItemsSound | boludecesback/test222/migrate_script.js:101-163 | every item has a non-empty name and the table's name and type; without a unit column each carries the capitalised `typeValue` |
| Migration.NoCategoryRows | boludecesback/test222/migrate_script.js:54-55 | without a unit column no row is a category row |
| Migration.PriceFrom | boludecesback/test222/migrate_script.js:167-179 | each price comes from a month column whose value is not null, undefined or empty, dated by that column |
| Migration.PriceOf | boludecesback/test222/migrate_script.js:167-179 | each such month column gives a price |
| Migration.InsertPrices | boludecesback/test222/migrate_script.js:206-226 | the inserted ids are `insertId + i` in batch order, and the price rows are those specified by PricesToInsert |
| Migration.ValidPriceFrom | boludecesback/test222/migrate_script.js:218-222 | a kept price row carries the item's id and one of its entries whose date parses and whose price is a number |
| Migration.ValidPriceOf | boludecesback/test222/migrate_script.js:218-222 | every such entry of the item is kept |
| Migration.InsertedFrom | boludecesback/test222/migrate_script.js:214-226 | every price row to insert carries the id of one of the batch's items and one of that item's valid prices |
| Migration.InsertedOf | boludecesback/test222/migrate_script.js:214-226 | every valid price of an item is inserted under the item's id |
| Calculations.ItemTotalDefaults | lib/utils/calculations.ts:4-9 | an item total is quantity × unit price, a missing argument counting as 0 |
| Calculations.SectionTotalAppend | lib/utils/calculations.ts:17-19 | a section total adds up over concatenated item lists |
| Calculations.GrandTotalIsTotalOfAllItems | lib/utils/calculations.ts:11-22 | the grand total is the total of all items of all sections |
| Calculations.PercentageAdds | lib/utils/calculations.ts:52-57 | the percentage of a sum is the sum of the percentages (0 when the grand total is not positive) |
| Calculations.PercentageMonotone | lib/utils/calculations.ts:52-57 | a larger amount never gets a smaller percentage |
| Calculations.MedicionAcumulado | lib/utils/calculations.ts:59-64 | the accumulated amount is anterior + presente, a missing one counting as 0 |
| Calculations.SectionRubros | lib/utils/calculations.ts:24-35 | one rubro per section in entry order: the section total as a percentage of the grand total |
| Calculations.RubrosOfNoTotal | lib/utils/calculations.ts:33 | every rubro is 0 when the grand total is not positive |
| Calculations.RubrosSum | lib/utils/calculations.ts:24-35 | the rubros add up to the percentage of the sum of all section totals |
| Calculations.RubrosAddUpTo100 | lib/utils/calculations.ts:24-35 | with the computed positive grand total the rubros add up to 100 |
| Calculations.WholeIs100 | lib/utils/calculations.ts:56 | the grand total is 100 % of itself |
| Calculations.SectionIacums | lib/utils/calculations.ts:37-50 | the IACUM loop gives, per section, the running total of the sections so far as a percentage |
| Calculations.IacumIsRubroPrefixSum | lib/utils/calculations.ts:37-50 | each IACUM is the sum of the rubros up to and including its section |
| Calculations.GrandTotalPrefixMonotone | lib/utils/calculations.ts:47 | with non-negative section totals the running total never decreases |
| Calculations.IacumsNonDecreasing | lib/utils/calculations.ts:37-50 | with non-negative section totals the IACUMs are non-decreasing |
| Calculations.LastIacumIs100 | lib/utils/calculations.ts:37-50 | with the computed positive grand total the last IACUM is 100 |
| Calculations.NonNegativeItems | lib/utils/calculations.ts:17-19 | non-negative quantities and prices give a non-negative section total |
| PresupuestoHook.FindById | lib/hooks/usePresupuesto.ts:62-64 | the position of the first line whose `String(id)` equals `String(itemId)`, or none when no line has it; an id that an edit turned into a number is compared in its JavaScript text |
| JsNumbers.IntegerTextReads | lib/hooks/usePresupuesto.ts:63 | the `String` text of a whole number reads back through `Number` as that number |
| PresupuestoHook.Edited | lib/hooks/usePresupuesto.ts:67-79 | for every key of the item type (id, code, name, unit, quantity, unitPrice, total, tag) the targeted field holds the number and every other field is kept; `totalPrice` is recomputed as quantity × price exactly for quantity and price edits |
| PresupuestoHook.RefreshItems | lib/hooks/usePresupuesto.ts:94-105 | every line of a section is refreshed with its own total, parcial and the section's rubro |
| PresupuestoHook.RefreshAll | lib/hooks/usePresupuesto.ts:89-106 | every section is refreshed, keys and order unchanged |
| PresupuestoHook.RefreshSections | lib/hooks/usePresupuesto.ts:89-106 | the `forEach` over the section keys computes RefreshAll |
| PresupuestoHook.BudgetEditor.UpdateData | lib/hooks/usePresupuesto.ts:54-112 | `data` becomes the specified update of its old value |
| PresupuestoHook.BudgetEditor.AddElementToSection | lib/hooks/usePresupuesto.ts:115-127 | `data` becomes its old value with the element appended to the section |
| PresupuestoHook.BudgetEditor.DeleteRowFrom | lib/hooks/usePresupuesto.ts:130-138 | `data` becomes its old value with the id's lines removed from the section |
| PresupuestoHook.UpdateUnknownIsNoOp | lib/hooks/usePresupuesto.ts:61-66 | an update for an unknown tag or item id leaves the data unchanged |
| PresupuestoHook.RefreshAllSound | lib/hooks/usePresupuesto.ts:89-106 | after an update every line has totalPrice = quantity × unitPrice, parcial = its total's share and rubro = its section total's share of the captured grand total |
| PresupuestoHook.UpdateKeepsShape | lib/hooks/usePresupuesto.ts:82-106 | a successful update keeps every key in place and the length of the section |
| PresupuestoHook.UpdateSetsField | lib/hooks/usePresupuesto.ts:66-86 | a successful update sets the targeted field, text fields included, to `Number(value) \|\| 0` and keeps the line's other fields, its id unless the id is the field edited |
| PresupuestoHook.UpdatedSection | lib/hooks/usePresupuesto.ts:82-106 | the updated section is the edited list with the line replaced in place, then refreshed |
| PresupuestoHook.AddElementAppends | lib/hooks/usePresupuesto.ts:115-127 | the element is last in its section, which is created when absent; no other section changes |
| PresupuestoHook.WithoutSound | lib/hooks/usePresupuesto.ts:134 | the lines kept are exactly those with another id |
| PresupuestoHook.WithoutAppend | lib/hooks/usePresupuesto.ts:134 | the filter distributes over concatenation, so the kept lines keep their order |
| PresupuestoHook.WithoutKeepsOthers | lib/hooks/usePresupuesto.ts:134 | every line with another id survives as many times as it occurred |
| PresupuestoHook.DeleteRowRemoves | lib/hooks/usePresupuesto.ts:130-138 | only the named section changes; it holds no line with the id, and an absent section becomes empty |
| MedicionHook.FindEntry | lib/hooks/useMedicion.ts:40-42 | an entry of the measurement whose `itemId` matches the line's id, or none when no entry matches |
| MedicionHook.CarryForward | lib/hooks/useMedicion.ts:36-52 | every section keeps its tag and every line is replaced by its carried-forward form, section sizes unchanged |
| MedicionHook.Detail | lib/hooks/useMedicion.ts:93-109 | every section keeps its tag and every line takes its values from the viewed measurement, section sizes unchanged |
| MedicionHook.FindLine | lib/hooks/useMedicion.ts:122-124 | the first position whose id matches, or none when no line has that id |
| MedicionHook.PayloadEntries | lib/hooks/useMedicion.ts:161-171 | one payload entry per flattened line, in order |
| MedicionHook.CarrySections | lib/hooks/useMedicion.ts:37-51 | the `forEach` over the section keys computes CarryForward |
| MedicionHook.DetailSections | lib/hooks/useMedicion.ts:94-108 | the `forEach` over the section keys computes Detail |
| MedicionHook.MedicionEditor.FetchedMediciones | lib/hooks/useMedicion.ts:30-53 | the history is replaced by the fetched list; when it is non-empty the data is carried forward from its first (latest) measurement, otherwise the data is kept |
| MedicionHook.MedicionEditor.ResetToLatestMedicion | lib/hooks/useMedicion.ts:68-89 | with an empty history nothing changes; otherwise the data is carried forward from the latest measurement |
| MedicionHook.MedicionEditor.ViewMedicionDetail | lib/hooks/useMedicion.ts:92-110 | the data becomes Detail of the viewed measurement; history and error kept |
| MedicionHook.MedicionEditor.UpdateData | lib/hooks/useMedicion.ts:113-141 | the data becomes the result of the edit rule; history and error kept |
| MedicionHook.MedicionEditor.SaveMedicion | lib/hooks/useMedicion.ts:144-172 | the result is the validated payload or the "Presente" error; data unchanged; the error field is set exactly when saving fails |
| MedicionHook.CarryForwardSound | lib/hooks/useMedicion.ts:40-48 | a carried line keeps id, name and category, has `anterior` and `acumulado` equal to the previous `acumulado` (0 when absent) and `presente` 0 |
| MedicionHook.CarryUnknownIsZero | lib/hooks/useMedicion.ts:45-47 | a line absent from the last measurement starts from zero |
| MedicionHook.CarryForwardIdempotent | lib/hooks/useMedicion.ts:68-89 | resetting twice to the same measurement equals resetting once |
| MedicionHook.DetailSound | lib/hooks/useMedicion.ts:97-105 | a viewed line keeps its id and name and shows the matching entry's anterior, presente and acumulado, or 0 for each when the measurement has no entry for it |
| MedicionHook.UpdateUnknownIsNoOp | lib/hooks/useMedicion.ts:122-126 | an edit to an id absent from the section leaves the data unchanged |
| MedicionHook.UpdateOtherKeyIsNoOp | lib/hooks/useMedicion.ts:128-136 | an edit to any field other than `presente` leaves the data unchanged |
| MedicionHook.UpdatePresente | lib/hooks/useMedicion.ts:128-136 | a `presente` edit sets presente to the parsed value (0 when unparsable) and acumulado to anterior plus it, on that one line only |
| MedicionHook.HasChangesIff | lib/hooks/useMedicion.ts:148-150 | the save guard holds exactly when some line has a positive presente |
| MedicionHook.SaveNeedsChanges | lib/hooks/useMedicion.ts:148-156 | saving fails exactly when no flattened line has a positive presente |
| MedicionHook.SavePayloadEntries | lib/hooks/useMedicion.ts:159-172 | the payload carries the given date and, per flattened line, its id, anterior, presente and their sum |
| PresupuestoStore.SectionSums | lib/context/PresupuestoContext.tsx:77-81 | one entry per section, in order, holding its tag and the `reduce` sum of its totals |
| PresupuestoStore.CalculateTotals | lib/context/PresupuestoContext.tsx:73-84 | the `forEach` yields the overall sum and the per-section sums |
| PresupuestoStore.NumericSectionSum | lib/context/PresupuestoContext.tsx:78 | with numeric totals a section sums to the number Σ total (a missing total counts 0) |
| PresupuestoStore.NumericGrandSum | lib/context/PresupuestoContext.tsx:75-80 | with numeric totals the overall total is a number: the previous sections' total plus the last section's sum |
| PresupuestoStore.StringTotalMakesText | lib/context/PresupuestoContext.tsx:78 | one non-empty string total anywhere in a section turns its `acc + total` sum into a string |
| PresupuestoStore.FindById | lib/context/PresupuestoContext.tsx:95 | the first position whose id equals the given id, or none when no line has it |
| PresupuestoStore.EditedLineTotal | lib/context/PresupuestoContext.tsx:99-106 | a quantity or price edit stores the field and sets total to quantity × price; a total edit stores the value; a text edit keeps total |
| PresupuestoStore.TotalEditMakesTextSum | lib/context/PresupuestoContext.tsx:100 | as written, editing `total` stores the raw string, and the section sum is then a string |
| PresupuestoStore.UpdateKeepsTotalsNumeric | lib/context/PresupuestoContext.tsx:93-110 | with numbers stored, every edit keeps every total of the section numeric |
| PresupuestoStore.UpdateUnknownIsNoOp | lib/context/PresupuestoContext.tsx:95-97 | an id absent from the section leaves the data unchanged, as written and corrected |
| PresupuestoStore.UpdateRecomputesTotal | lib/context/PresupuestoContext.tsx:99-108 | on the found line a quantity or price edit recomputes total as the product; other text edits keep it |
| PresupuestoStore.Without | lib/context/PresupuestoContext.tsx:125 | the lines kept are exactly those whose id differs |
| PresupuestoStore.AddItemAppends | lib/context/PresupuestoContext.tsx:114-119 | the section (created when missing) gains the item at its end; other sections unchanged |
| PresupuestoStore.RemoveItemFilters | lib/context/PresupuestoContext.tsx:122-127 | the section holds exactly its lines with a different id; other sections unchanged |
| PresupuestoStore.FindLine | lib/context/PresupuestoContext.tsx:141 | the position of the first measurement line with that id, or none when absent |
| PresupuestoStore.MedicionEditAccepted | lib/context/PresupuestoContext.tsx:145-167 | an accepted value lies between the previous percentage and 100; the line then holds it as presente and acumulado, with completedAmount = total × presente / 100, other fields kept |
| PresupuestoStore.MedicionEditRejects | lib/context/PresupuestoContext.tsx:148-158 | a value below the previous percentage, or above 100, is rejected with its message |
| PresupuestoStore.SaveTotals | lib/context/PresupuestoContext.tsx:180-188 | the nested `forEach` sums completedAmount and total over every line of every section |
| PresupuestoStore.SavePercentage | lib/context/PresupuestoContext.tsx:172-190 | nothing is saved without a budget or a current measurement; otherwise the percentage is completed over total × 100 |
| PresupuestoStore.CompletedPercentageBounds | lib/context/PresupuestoContext.tsx:190 | a zero total amount gives no percentage (NaN or infinity); completed equal to total gives 100 |
| PresupuestoStore.Store.UpdatePresupuestoItem | lib/context/PresupuestoContext.tsx:87-111 | the items become the corrected edit; measurement and error kept |
| PresupuestoStore.Store.AddItemToSection | lib/context/PresupuestoContext.tsx:114-119 | the items become the appended grouping; measurement and error kept |
| PresupuestoStore.Store.RemoveItemFromSection | lib/context/PresupuestoContext.tsx:122-127 | the items become the filtered grouping; measurement and error kept |
| PresupuestoStore.Store.UpdateMedicionItem | lib/context/PresupuestoContext.tsx:130-169 | without a measurement nothing changes; a rejected value sets the error and keeps the measurement; an accepted one replaces it |
| MedicionesEditor.Take | components/editores/MedicionesEditor.tsx:67 | `substring(0, n)` gives a prefix of the text of at most n characters |
| MedicionesEditor.MonthDiff | components/editores/MedicionesEditor.tsx:84-85 | the month difference is a number exactly when both periods read as numbers (otherwise NaN) |
| MedicionesEditor.Periods | components/editores/MedicionesEditor.tsx:71 | one (year, month) per measurement, in list order, read from its first 7 characters |
| MedicionesEditor.PreviousIndex | components/editores/MedicionesEditor.tsx:70-88 | the measurement the `reduce` keeps is a candidate, not in the current or a later month |
| MedicionesEditor.PreviousMedicion | components/editores/MedicionesEditor.tsx:70-88 | the previous measurement is one of the list |
| MedicionesEditor.PreviousExists | components/editores/MedicionesEditor.tsx:73-79 | there is no previous measurement exactly when every measurement is skipped as current or future |
| MedicionesEditor.PreviousIsClosest | components/editores/MedicionesEditor.tsx:79-88 | with well-formed periods the chosen measurement has the least month difference among the candidates, and a candidate before it in the list has a strictly greater one (ties keep the earlier) |
| MedicionesEditor.CandidateIsEarlier | components/editores/MedicionesEditor.tsx:74 | for well-formed periods the skip test keeps exactly the (year, month) pairs strictly before the current one |
| MedicionesEditor.FindSection | components/editores/MedicionesEditor.tsx:95 | a previous section with the name, or none when no section has it |
| MedicionesEditor.FindItem | components/editores/MedicionesEditor.tsx:96 | a previous line with the id, or none when no line has it |
| MedicionesEditor.CarriedItems | components/editores/MedicionesEditor.tsx:94-103 | one carried line per budget line, in order |
| MedicionesEditor.CarriedSections | components/editores/MedicionesEditor.tsx:92-104 | one measurement section per budget section, in order, named by its tag |
| MedicionesEditor.PreparedSound | components/editores/MedicionesEditor.tsx:58-133 | the prepared measurement has the URL period (else the initial one), one section per budget section and one line per budget line with anterior = acumulado = the previous matching acumulado (or 0) and presente 0; every line then has acumulado = anterior + presente |
| MedicionesEditor.EditItems | components/editores/MedicionesEditor.tsx:203-210 | lines with the id get the new presente and acumulado = anterior + presente; every other line is kept |
| MedicionesEditor.EditSections | components/editores/MedicionesEditor.tsx:198-212 | sections with another name are kept; the named ones have their lines edited |
| MedicionesEditor.FindBudgetItem | components/editores/MedicionesEditor.tsx:221 | a budget line with the id, or none when absent |
| MedicionesEditor.AdvanceTotals | components/editores/MedicionesEditor.tsx:215-227 | the two nested `forEach` loops sum price × presente / 100 and price × anterior / 100 over the lines found in the budget |
| MedicionesEditor.SectionAdvance | components/editores/MedicionesEditor.tsx:220-226 | the inner loop over one section computes its present and previous advance |
| MedicionesEditor.UpdateMedicion | components/editores/MedicionesEditor.tsx:190-247 | in display mode the measurement is returned unchanged; otherwise it is the edited one with its advance percentages |
| MedicionesEditor.UpdateTouchesOnlyTarget | components/editores/MedicionesEditor.tsx:198-212 | only lines with the id in sections with the name change, to the new presente with acumulado following it; all shapes and the period are kept |
| MedicionesEditor.UpdateKeepsConsistent | components/editores/MedicionesEditor.tsx:205-209 | editing keeps every line's acumulado equal to anterior plus presente |
| MedicionesEditor.UpdateIdempotent | components/editores/MedicionesEditor.tsx:190-247 | entering the same value twice equals entering it once |
| MedicionesEditor.NoPresentNoAdvance | components/editores/MedicionesEditor.tsx:220-226 | lines with presente 0 contribute no present advance |
| MedicionesEditor.NoPresentNoAdvanceAll | components/editores/MedicionesEditor.tsx:218-227 | a measurement with presente 0 everywhere has no present advance |
| MedicionesEditor.CarriedHasNoPresentAdvance | components/editores/MedicionesEditor.tsx:92-104 | a freshly carried-forward measurement has no present advance |
| MedicionesEditor.PeriodChangeReadsBack | components/editores/MedicionesEditor.tsx:292-298 | the chosen `YYYY-MM` month with `-01` appended reads back as that month; the sections are kept |
| MedicionesQuery.Transform | hooks/useMediciones.ts:51-70 | one summary per response |
| MedicionesQuery.CollectMeasurements | hooks/useMediciones.ts:56-68 | the `reduce` over the sections writes exactly the keyed map of all their items, in section order |
| MedicionesQuery.KeySection | hooks/useMediciones.ts:58-64 | the inner `forEach` extends the accumulator from the items so far to those items followed by the section's |
| MedicionesQuery.TransformAt | hooks/useMediciones.ts:53-69 | each summary keeps the response's id, has its `periodo` as month, and the keyed measurements of all its sections |
| MedicionesQuery.KeyedDomain | hooks/useMediciones.ts:58-59 | an id is a key exactly when some item of some section has it |
| MedicionesQuery.LastWins | hooks/useMediciones.ts:58-63 | a key holds (presente, anterior, acumulado) of the last item with that id: later duplicates overwrite earlier ones |
| MedicionesQuery.NoSectionsNoMeasurements | hooks/useMediciones.ts:56-68 | a response with no sections gives an empty measurements map |
| TableTree.FlattenRowLength | lib/utils/table-utils.ts:6-9 | a row's flattening holds the row and each of its descendants once: its length is the subtree's node count |
| TableTree.FlattenLength | lib/utils/table-utils.ts:4-12 | the flattening's length is the forest's node count |
| TableTree.FlattenAppend | lib/utils/table-utils.ts:5-11 | flattening distributes over concatenation of forests |
| TableTree.PreOrderPosition | lib/utils/table-utils.ts:4-12 | row i sits right after the nodes of the rows before it and is immediately followed by its descendants' flattening (pre-order) |
| TableTree.StrLessAsymmetric | lib/utils/table-utils.ts:37-38 | string `<` is asymmetric |
| TableTree.StrLessTotal | lib/utils/table-utils.ts:37-39 | of two different strings one is `<` the other: the comparator returns 0 only for equal cells |
| TableTree.BeforeAsymmetric | lib/utils/table-utils.ts:33-40 | the comparator never puts each of two rows before the other |
| TableTree.Insert | lib/utils/table-utils.ts:33-40 | one insertion step of the stable sort adds exactly the row to the multiset |
| TableTree.InsertSorted | lib/utils/table-utils.ts:33-40 | inserting into an ordered level keeps it ordered |
| TableTree.SortLevel | lib/utils/table-utils.ts:33 | sorting one level is a permutation of the copy |
| TableTree.SortLevelSorted | lib/utils/table-utils.ts:33-40 | the sorted level has no adjacent pair the comparator would swap |
| TableTree.MapSort | lib/utils/table-utils.ts:42-50 | the `map` keeps one row per row |
| TableTree.MapSortAt | lib/utils/table-utils.ts:42-50 | each row keeps its cells and has its sub-items sorted recursively |
| TableTree.MapSortSnoc | lib/utils/table-utils.ts:42-50 | the `map` distributes over appending a row |
| TableTree.InsertCommutes | lib/utils/table-utils.ts:33-50 | sorting sub-items commutes with an insertion step, because the comparator reads only the row's own cells |
| TableTree.SortThenMap | lib/utils/table-utils.ts:28-51 | `sortData` is the level sort followed by the recursive `map` |
| TableTree.SortDataSound | lib/utils/table-utils.ts:28-51 | the result is a permutation of the input rows (each with its sub-items sorted) and its top level is in order |
| TableTree.SortedMeaning | lib/utils/table-utils.ts:36-39 | ascending puts no cell after a smaller one; descending reverses that |
| ExpandableTable.AdaptElements | components/expandable-table.tsx:64-78 | one leaf row per element, with its id as text, name, unit and price text |
| ExpandableTable.AdaptTags | components/expandable-table.tsx:60-88 | one top-level row per tag with its id as text, its name, empty unit and price, and its elements as sub-rows |
| ExpandableTable.AdaptTagsSize | components/expandable-table.tsx:60-88 | the adapted table's node count is the tags plus all their elements |
| ExpandableTable.LeafRowsSize | components/expandable-table.tsx:72-77 | rows without sub-items count one node each |
| ExpandableTable.PriceTextLast | components/expandable-table.tsx:67-71 | an element without prices shows `"0.00"`; otherwise it shows its last price |
| ExpandableTable.IdsOf | components/expandable-table.tsx:94-97 | one id per row |
| ExpandableTable.IdsOfAt | components/expandable-table.tsx:94-97 | position i holds row i's id |
| ExpandableTable.IdsOfAppend | components/expandable-table.tsx:97 | ids of a concatenation are the concatenated ids |
| ExpandableTable.FlattenSnoc | components/expandable-table.tsx:96-98 | the flattening of the first i+1 sub-rows extends that of the first i by row i's subtree |
| ExpandableTable.CollectAllIds | components/expandable-table.tsx:93-101 | the loop collects the ids of the item's subtree in pre-order |
| ExpandableTable.CollectStep | components/expandable-table.tsx:96-98 | one loop step appends the next sub-row's subtree ids |
| ExpandableTable.CollectDone | components/expandable-table.tsx:94-100 | after the last sub-row the result is the item's id followed by its descendants' ids |
| ExpandableTable.CollectedIdsShape | components/expandable-table.tsx:93-101 | the collected ids start with the item's own and number the subtree's nodes |
| ExpandableTable.RemoveRowClean | components/expandable-table.tsx:109-114 | a kept row's flattened subtree has no removed id |
| ExpandableTable.RemoveIdsClean | components/expandable-table.tsx:106-115 | no node of the result, at any depth, has an id in the set |
| ExpandableTable.RemoveRowIdempotent | components/expandable-table.tsx:109-114 | removing twice inside a kept row removes nothing more |
| ExpandableTable.RemoveIdsIdempotent | components/expandable-table.tsx:106-115 | removing twice removes nothing more |
| ExpandableTable.RemoveIdsTopLevel | components/expandable-table.tsx:107-108 | at the top level exactly the rows whose ids are not in the set survive, in order |
| ExpandableTable.CloneAll | components/expandable-table.tsx:129 | one clone per sub-row |
| ExpandableTable.CloneRowSize | components/expandable-table.tsx:124-131 | a clone has as many nodes as its original |
| ExpandableTable.CloneAllSize | components/expandable-table.tsx:129 | cloned sub-rows have as many nodes as the originals |
| ExpandableTable.ClonesOfAppend | components/expandable-table.tsx:134-141 | the clones pushed for a concatenation are those of each part, in order |
| ExpandableTable.ClonesCount | components/expandable-table.tsx:133-142 | one clone is pushed per selected node |
| ExpandableTable.Traverse | components/expandable-table.tsx:133-142 | `traverse` pushes, in pre-order, a clone of each selected node at any depth |
| ExpandableTable.DuplicateSelected | components/expandable-table.tsx:121-146 | the original rows come first, unchanged, followed by exactly the clones of the selected nodes in pre-order |
| ExpandableTable.AsSet | components/expandable-table.tsx:203-216 | the set holds exactly the listed ids |
| ExpandableTable.ExpandMeaning | components/expandable-table.tsx:210-213 | expanding marks every id `true` and keeps the other entries |
| ExpandableTable.CollapseMeaning | components/expandable-table.tsx:215-218 | collapsing deletes every id and keeps the other entries |
| ExpandableTable.ToggleSelect | components/expandable-table.tsx:201-223 | the new selection and expansion are those of the subtree's ids: all selected and expanded when any was unselected, else all deselected and collapsed |
| ExpandableTable.SelectAll | components/expandable-table.tsx:210-213 | the loop adds every id to the selection and expands it |
| ExpandableTable.DeselectAll | components/expandable-table.tsx:215-218 | the loop removes every id from the selection and collapses it |
| ExpandableTable.ToggleSound | components/expandable-table.tsx:207-219 | after a toggle every subtree id is selected exactly when one was unselected, ids outside keep their state; toggling an unselected subtree twice restores the selection |
| ExpandableTable.EditRows | components/expandable-table.tsx:184-194 | one row per row |
| ExpandableTable.EditRowsAt | components/expandable-table.tsx:185-193 | each row is edited by the per-row rule |
| ExpandableTable.EditMatched | components/expandable-table.tsx:186-188 | a row with the id holds the value in the field, its sub-items left as they were |
| ExpandableTable.EditRowSize | components/expandable-table.tsx:185-193 | an edit keeps a row's node count |
| ExpandableTable.EditRowsSize | components/expandable-table.tsx:183-196 | an edit keeps the table's node count |
| ExpandableTable.EditRowIdempotent | components/expandable-table.tsx:185-193 | editing a non-id field twice on a row is editing it once |
| ExpandableTable.EditRowsIdempotent | components/expandable-table.tsx:183-196 | editing a non-id field twice is editing it once |
| Breadcrumbs.DropTrailingSlash | hooks/useBreadcrumbs.ts:31 | the pathname is kept, or loses exactly one trailing `/` |
| Breadcrumbs.NonEmpty | hooks/useBreadcrumbs.ts:31 | `filter(Boolean)` keeps exactly the non-empty pieces |
| Breadcrumbs.Segments | hooks/useBreadcrumbs.ts:31 | every segment is non-empty and holds no `/` |
| Breadcrumbs.PathOfPrefix | hooks/useBreadcrumbs.ts:44 | the path of the first j segments is a prefix of the full path |
| Breadcrumbs.CrumbsFrom | hooks/useBreadcrumbs.ts:37-95 | the segments from i on give at most one crumb each |
| Breadcrumbs.PathOfSnoc | hooks/useBreadcrumbs.ts:44 | `currentPath += "/" + segment` extends the path by one segment |
| Breadcrumbs.Visit | hooks/useBreadcrumbs.ts:37-95 | one `forEach` turn advances the path by one segment, or by two with `skipNext` set for a creation step, and the crumbs pushed so far plus those still to come stay the whole trail |
| Breadcrumbs.GenerateBreadcrumbs | hooks/useBreadcrumbs.ts:29-106 | the loop with its `skipNext` flag and the final `unshift` computes the trail of the pathname |
| Breadcrumbs.RootHasNoTrail | hooks/useBreadcrumbs.ts:31-98 | `/` and the empty pathname have no crumb, not even home |
| Breadcrumbs.TrailStartsAtHome | hooks/useBreadcrumbs.ts:97-103 | a non-empty trail starts with the "Inicio" crumb and has at least one crumb after it; the trail is empty exactly when no segment gives a crumb |
| Breadcrumbs.CrumbEnd | hooks/useBreadcrumbs.ts:44-93 | every crumb links to the path of the segments up to the segment it returns, and is the current page exactly when that is the last segment |
| Breadcrumbs.HrefsArePathPrefixes | hooks/useBreadcrumbs.ts:29-106 | every href of a trail is a prefix of the full path, or is home |
| Breadcrumbs.CreateFoldsNext | hooks/useBreadcrumbs.ts:47-62 | `create` followed by a segment gives one creation crumb labelled for that segment and linking past both, and the trail continues after the next segment |
| Breadcrumbs.TrailingCreateIgnored | hooks/useBreadcrumbs.ts:65-68 | a trailing `create` with nothing after it adds no crumb |
| Onboarding.MarkAt | components/Onboarding/OnboardingProvider.tsx:88-92 | setting a step's `completed` flag keeps the number of steps |
| Onboarding.FindOrder | components/Onboarding/OnboardingProvider.tsx:162 | the first step with the order, or none when no step has it |
| Onboarding.InsertByOrder | components/Onboarding/OnboardingProvider.tsx:137-144 | one insertion step of the stable sort adds exactly the new step to the multiset |
| Onboarding.SortByOrder | components/Onboarding/OnboardingProvider.tsx:144 | sorting by order is a permutation |
| Onboarding.InsertAtEnd | components/Onboarding/OnboardingProvider.tsx:137-144 | a step with an order above all others lands at the end |
| Onboarding.SortOrdered | components/Onboarding/OnboardingProvider.tsx:144 | sorting steps already in order changes nothing |
| Onboarding.InsertOrdered | components/Onboarding/OnboardingProvider.tsx:136-144 | inserting a step whose order is new keeps the list in strictly increasing order (what the list holds is fixed by InsertByOrder) |
| Onboarding.RegisterInserts | components/Onboarding/OnboardingProvider.tsx:136-146 | appending and sorting an ordered set is inserting the new step at its place, and the result is ordered |
| Onboarding.MarkKeepsOrders | components/Onboarding/OnboardingProvider.tsx:90-91 | changing `completed` flags keeps every order, hence keeps the set ordered |
| Onboarding.WellFormedUpdate | components/Onboarding/OnboardingProvider.tsx:94 | storing an ordered list under a set keeps every set ordered |
| Onboarding.ReduceKeepsWellFormed | components/Onboarding/OnboardingProvider.tsx:52-178 | every action keeps each set's steps in strictly increasing order |
| Onboarding.StartAndExit | components/Onboarding/OnboardingProvider.tsx:54-69 | START makes the set current at step 0 and active, keeping the steps and, without a config, the old config; EXIT clears the set, resets the step to 0 and deactivates, keeping steps and config |
| Onboarding.NextStepCases | components/Onboarding/OnboardingProvider.tsx:71-101 | without a set nothing changes; at the last step NEXT is EXIT; otherwise the step advances by one, the step left is marked completed and nothing else in any set changes |
| Onboarding.PrevStepCases | components/Onboarding/OnboardingProvider.tsx:103-127 | without a set or at step 0 nothing changes; otherwise the step goes back by one and the step left is marked not completed, nothing else in the set changing |
| Onboarding.PrevUndoesNext | components/Onboarding/OnboardingProvider.tsx:71-127 | PREV after NEXT restores the state when the step left was completed and the next one was not |
| Onboarding.RegisterCases | components/Onboarding/OnboardingProvider.tsx:129-153 | a step whose order the set already has changes nothing; otherwise the set gains exactly the new, uncompleted step, stays ordered, and other sets are kept |
| Onboarding.SetCompletedCases | components/Onboarding/OnboardingProvider.tsx:155-173 | an unknown order changes nothing; otherwise only the first step with that order gets the new flag |
| ObraReducer.OnlyTargetChanges | app/providers/ObraProvider.tsx:37-61 | every action changes at most the one field it is about; an unknown action returns the state as it is |
| ObraReducer.SetStoresPayload | app/providers/ObraProvider.tsx:39-50 | a `SET_*` action leaves its field holding exactly the payload |
| ObraReducer.AddAppends | app/providers/ObraProvider.tsx:53-58 | an `ADD_*` action keeps the existing entries and appends the payload after them |
| ObraReducer.UpdateObraMerges | app/providers/ObraProvider.tsx:51-52 | `UPDATE_OBRA` yields an obra whose keys are the old ones plus the payload's, the payload's values winning and the other fields kept |
| ObraReducer.UpdateWithoutObra | app/providers/ObraProvider.tsx:52 | without an obra, `UPDATE_OBRA` makes the payload the obra |
| ObraReducer.ReplayIdempotent | app/providers/ObraProvider.tsx:39-52 | dispatching a set or merge action twice is the same as once |
| GuidedTour.Tour.constructor | hooks/useTour.ts:8-10 | a new tour is at step 0 and inactive |
| GuidedTour.Tour.TotalSteps | hooks/useTour.ts:60 | the number of steps |
| GuidedTour.Tour.Start | hooks/useTour.ts:21 | `start` activates the tour and keeps its step |
| GuidedTour.Tour.Stop | hooks/useTour.ts:22-25 | `stop` deactivates the tour and resets it to step 0 |
| GuidedTour.Tour.NextStep | hooks/useTour.ts:27-33 | before the last step the step advances by one and activity is kept; at or past the last step the tour stops |
| GuidedTour.Tour.Target | hooks/useTour.ts:35-39 | an element is targeted exactly when the tour is active on an existing step, and it is that step's `targetId` |
| GuidedTour.WalkThrough | hooks/useTour.ts:27-33 | from any step of an active tour, advancing up to the last step keeps it active at the last step, and one more advance stops it at step 0 |
| QueryCache.HitOrFetch | lib/cache.ts:3-11 | the fetcher is called exactly on a miss; a hit returns the stored value, a miss settles as the fetcher did (its value or its rejection) |
| QueryCache.LookupKeepsEntries | lib/cache.ts:4-9 | entries are never overwritten or removed; the key is added exactly when the call yields a value, and stored with it |
| QueryCache.RejectedFetchIsRetried | lib/cache.ts:8-9 | a rejecting fetcher stores nothing and its rejection is passed on, so the next lookup fetches again |
| QueryCache.SecondLookupHits | lib/cache.ts:4-6 | once a lookup yielded a value, a second lookup of the same key returns it without fetching and changes nothing |
| QueryCache.LookupsCommute | lib/cache.ts:3-11 | lookups of different keys leave the same entries in either order |
| QueryCache.Cache.GetCachedData | lib/cache.ts:3-11 | the outcome (value or rejection), whether the fetcher ran, and the new entries are those of the lookup on the old entries |
| Validation.FirstMissing | lib/utils/validation.ts:7-12 | the first required field, in list order, that is undefined, null or `""`, or none when all are present |
| Validation.ValidateRequiredFields | lib/utils/validation.ts:3-20 | the loop succeeds exactly when no field is missing, and otherwise throws the 400 `VALIDATION_ERROR` naming the first missing field |
| Validation.FirstMissingIs | lib/utils/validation.ts:7-18 | a missing field preceded only by present ones is the one reported |
| Validation.NumbersAndBooleansArePresent | lib/utils/validation.ts:8-11 | fields holding numbers or booleans, `0` and `false` included, are never missing |
| Validation.ValidateNumericField | lib/utils/validation.ts:22-30 | the field is rejected, with its message, exactly when `Number(value)` is NaN |
| Validation.NumericFieldOfText | lib/utils/validation.ts:23 | blank text passes (it converts to 0); other text passes exactly when its trimmed form is a numeral |
| Validation.ParseIntOfBlank | lib/utils/validation.ts:47 | `parseInt` of blank text is NaN |
| Validation.BlankIdIsNaN | lib/utils/validation.ts:43-48 | as written a non-empty blank id passes the guard and returns NaN |
| Validation.ValidateIdParam | lib/utils/validation.ts:43-48 | an accepted id returns `parseInt(id, 10)` and is accepted as written too; every id the guard rejects is rejected, with the invalid-id error |
| Validation.ValidIdOfDigits | lib/utils/validation.ts:43-48 | an id of digits is accepted with its decimal value |
| Validation.ValidIdTruncates | lib/utils/validation.ts:47 | `whole.frac` is accepted and truncated to `whole`, so `"1.5"` gives 1 |
| Validation.BlankIdRejected | lib/utils/validation.ts:44-46 | with the corrected guard blank ids are rejected |
| ItemRoutes.Direction | app/api/tagsWithElements/route.ts:14 | the sort direction is always `DESC` or `ASC` |
| ItemRoutes.SortClauseWhitelisted | app/api/tagsWithElements/route.ts:6-31 | the clause always orders by a whitelisted column in one of the two directions; a missing or empty parameter gives `ORDER BY i.id ASC` |
| ItemRoutes.SortClauseOfParam | app/api/tagsWithElements/route.ts:12-30 | `field:dir` with a whitelisted field orders by that field, descending exactly when the trimmed, upper-cased direction is `DESC` |
| ItemRoutes.SortClauseRejects | app/api/tagsWithElements/route.ts:26-28 | a field outside the whitelist falls back to the default, whatever the direction |
| ItemRoutes.OffsetOfDigits | app/api/tagsWithElements/route.ts:38-44 | page and limit written in digits give the offset page × limit |
| ItemRoutes.ParseIntOfDigits | app/api/tagsWithElements/route.ts:38-39 | `parseInt(s, 10)` of digits is their decimal value |
| ItemRoutes.DoubleQuotesEmpty | app/api/tagsWithElements/route.ts:53 | escaping gives the empty text exactly for the empty term |
| ItemRoutes.WhereClauseSound | app/api/tagsWithElements/route.ts:53-56 | an empty term gives no WHERE clause and any other term gives one; the escaped term decodes back to the term and doubles every quote |
| ItemRoutes.DoubleQuotesCount | app/api/tagsWithElements/route.ts:53 | escaping doubles the number of quotes |
| ItemRoutes.GroupBy | app/api/tagsWithElements/route.ts:122-129 | no group the `reduce` creates is empty |
| ItemRoutes.PutKeepsNonEmpty | app/api/tagsWithElements/route.ts:124-127 | pushing a row keeps every group non-empty |
| ItemRoutes.GroupItems | app/api/tagsWithElements/route.ts:122-129 | the `reduce` pushing into `acc[category]` computes the grouping |
| ItemRoutes.GroupHoldsKey | app/api/tagsWithElements/route.ts:122-129 | each group holds exactly the rows with its key, in input order, and a key has a group exactly when some row has it |
| ItemRoutes.GroupKeysUnique | app/api/tagsWithElements/route.ts:122-129 | no two groups share a key |
| ItemRoutes.BucketsEmpty | app/api/tagsWithElements/route.ts:132-136 | the four bucket arrays are all empty exactly when the four lists are |
| ItemRoutes.TagsNever404 | app/api/tagsWithElements/route.ts:143-151 | as written the `every` also sees the numeric `total`, so the route answers 200 for every page, including one without rows |
| ItemRoutes.TagsStatusSound | app/api/tagsWithElements/route.ts:132-151 | with the check over the buckets only, the route answers 404 exactly when no row falls into one of the four buckets, and for a page without rows |
| ItemRoutes.TableDataValues | app/api/presupuestos/tableData/route.ts:133-140 | the response values are one array per category group, with its row count |
| ItemRoutes.TableDataNotFoundIffEmpty | app/api/presupuestos/tableData/route.ts:123-146 | the table-data route answers 404 exactly when the page has no rows |
| SchemaPage.WordRun | app/schema/page.tsx:21 | `\w+` takes the longest run of word characters |
| SchemaPage.TypeRun | app/schema/page.tsx:43 | `[\w\[\]?]+` takes the longest run of type characters |
| SchemaPage.BlockAt | app/schema/page.tsx:21 | a block match ends within the text and consumes at least the braces |
| SchemaPage.NameBlock | app/schema/page.tsx:21 | a name-and-block match ends within the text |
| SchemaPage.SpacedBlock | app/schema/page.tsx:21 | a blanks-name-block match ends within the text |
| SchemaPage.MatchModel | app/schema/page.tsx:21 | a model match anchored at a position ends within the text and is non-empty |
| SchemaPage.MatchTable | app/schema/page.tsx:21-23 | the table holds one outcome per position of the schema, each consistent with the text left |
| SchemaPage.MatchTableAt | app/schema/page.tsx:21-23 | position j of the table is the anchored match of the text from j |
| SchemaPage.Exec | app/schema/page.tsx:23 | `exec` from `lastIndex` p returns the first position at or after p where a model block starts, with its name, body and end, and no block starts before it |
| SchemaPage.TrimAll | app/schema/page.tsx:30 | every line is trimmed, one per line |
| SchemaPage.KeepLines | app/schema/page.tsx:31-38 | the filter keeps at most the lines it is given |
| SchemaPage.NodesOf | app/schema/page.tsx:86 | one node per match |
| SchemaPage.ParsePrismaSchema | app/schema/page.tsx:5-90 | the `while` loop over the matches computes the parse of the schema: its nodes and relationships |
| SchemaPage.ParseBlocks | app/schema/page.tsx:22-87 | the loop over the match table builds the nodes and relationships of the table's matches |
| SchemaPage.ModelNode | app/schema/page.tsx:24-86 | one iteration gives the node of the match and the relationships of its fields |
| SchemaPage.LineFieldsOfMatch | app/schema/page.tsx:43-83 | a line not matching the field expression gives no field; a matching one gives exactly the field of its name, type token and trimmed rest |
| SchemaPage.BodyFields | app/schema/page.tsx:40-84 | the `forEach` over the lines collects their fields in order and the relationships of those fields |
| SchemaPage.FieldLine | app/schema/page.tsx:41-83 | one line gives at most one field, and a relationship exactly for that field when its type is not scalar |
| SchemaPage.MatchedField | app/schema/page.tsx:46-81 | the field of a matched line is FieldOf its name, type token and trimmed attributes (a trailing `?`, then a trailing `[]`, stripped and recorded), and it starts a relationship exactly when FieldRelations says so |
| SchemaPage.FieldsStep | app/schema/page.tsx:41-84 | one more line appends its fields |
| SchemaPage.RelationsStep | app/schema/page.tsx:74-82 | one more field appends its relationship, if any |
| SchemaPage.NodesStep | app/schema/page.tsx:86 | one more match appends its node |
| SchemaPage.AllRelationsStep | app/schema/page.tsx:76-81 | one more node appends its fields' relationships |
| SchemaPage.BlockAtSound | app/schema/page.tsx:21 | a block reads back as blanks, `{`, a body free of `}`, and `}` (the lazy `[\s\S]*?` stops at the first `}`) |
| SchemaPage.NameBlockSound | app/schema/page.tsx:21 | a name-and-block match reads back as a non-empty word followed by a block |
| SchemaPage.SpacedBlockSound | app/schema/page.tsx:21 | a blanks-name-block match reads back as non-empty blanks, a word and a block |
| SchemaPage.MatchModelSound | app/schema/page.tsx:21 | a model match reads back as `model`, non-empty blanks, a non-empty word name, optional blanks, `{`, a body without `}`, and `}` |
| SchemaPage.MatchesInOrder | app/schema/page.tsx:21-23 | the global expression's matches do not overlap, come in order, and no block starts between two consecutive ones |
| SchemaPage.MatchesAreMatches | app/schema/page.tsx:21-23 | every match found is a match of the expression at its start |
| SchemaPage.FirstMatch | app/schema/page.tsx:23 | no model block starts before the first match |
| SchemaPage.NodeIsModelBlock | app/schema/page.tsx:23-86 | there is one node per match, in match order, the node of that match |
| SchemaPage.NodesOfMatches | app/schema/page.tsx:86 | node i is the node of match i |
| SchemaPage.FieldOfSound | app/schema/page.tsx:50-70 | the field reads its type token back: the base type, then `[]` when it is a list, then `?` when optional; optional exactly when the token ends in `?` |
| SchemaPage.OptionalListField | app/schema/page.tsx:50-62 | `Post[]?` is an optional list of `Post` (the `?` is stripped before the `[]`) |
| SchemaPage.FieldMatchSound | app/schema/page.tsx:43-48 | a field match reads back as a non-empty word name, non-empty blanks, a non-empty type token and the rest of the line |
| SchemaPage.NonWordLineHasNoField | app/schema/page.tsx:43-45 | a line that does not start with a word character declares no field |
| SchemaPage.KeepLinesSound | app/schema/page.tsx:31-38 | the lines kept are exactly the listed lines that are non-empty and start with none of `//`, `@@`, `generator`, `datasource` |
| SchemaPage.BodyLinesSound | app/schema/page.tsx:28-38 | the lines of a body are exactly its trimmed newline-separated pieces that pass the filter |
| SchemaPage.RelationsOfSound | app/schema/page.tsx:74-82 | a model's relationships are exactly those of its fields whose type is not one of the six scalars |
| SchemaPage.AllRelationsSound | app/schema/page.tsx:17-89 | the relationships are exactly those of non-scalar fields of some node |
| SchemaPage.RelationshipsSound | app/schema/page.tsx:5-90 | a relationship of the parse goes from a node, via one of its non-scalar fields, to that field's type, and is one-to-many exactly for list fields; every such field gives one |
| SchemaPage.KeepConnected | app/schema/page.tsx:262 | the filter keeps at most the nodes it is given |
| SchemaPage.GetFilteredNodes | app/schema/page.tsx:255-263 | the `forEach` over the relationships and the filter compute the filtered nodes |
| SchemaPage.ConnectedSound | app/schema/page.tsx:257-261 | a name is connected exactly when some relationship starts or ends at it |
| SchemaPage.KeepConnectedSound | app/schema/page.tsx:262 | the nodes kept are exactly those whose name is connected |
| SchemaPage.FilteredNodesSound | app/schema/page.tsx:255-263 | without hiding every node is shown; with hiding exactly the nodes some relationship starts or ends at |
| SidebarNav.Lookup | components/sidebar/app-sidebar.tsx:99-100 | a key has a value exactly when some entry is named by it, and the value is that entry's |
| SidebarNav.CollapseSlashes | components/sidebar/app-sidebar.tsx:110 | `replace(/\/+/g, "/")` never lengthens the url, keeps its first character and leaves no doubled slash |
| SidebarNav.CollapseKeepsOtherChars | components/sidebar/app-sidebar.tsx:110 | collapsing removes slashes only: every other character is kept, in order |
| SidebarNav.CollapseKeepsCleanPath | components/sidebar/app-sidebar.tsx:110 | a url without doubled slashes is left unchanged |
| SidebarNav.CollapseIdempotent | components/sidebar/app-sidebar.tsx:110 | collapsing twice is collapsing once |
| SidebarNav.FindIconKey | components/sidebar/app-sidebar.tsx:71-94 | the chosen key is always one the icon map has, and never the layout-list or QR-code icon |
| SidebarNav.FindIconKeyRouted | components/sidebar/app-sidebar.tsx:72-90 | a folder name in the switch, in any letter case, gets the key its case returns |
| SidebarNav.FindIconKeyDefault | components/sidebar/app-sidebar.tsx:91-92 | exactly the names outside the switch get `Bot` |
| SidebarNav.FindIconKeyIgnoresCase | components/sidebar/app-sidebar.tsx:72 | the choice ignores letter case |
| SidebarNav.Capitalize | components/sidebar/app-sidebar.tsx:149-151 | the title has the name's length, its first letter upper-cased and the rest unchanged |
| SidebarNav.CapitalizeIdempotent | components/sidebar/app-sidebar.tsx:149-151 | capitalizing a title again changes nothing |
| SidebarNav.Contributions | components/sidebar/app-sidebar.tsx:96-131 | a folder contributes one (possibly empty) list per key, in enumeration order; an array contributes nothing |
| SidebarNav.TransformDirectoryToNav | components/sidebar/app-sidebar.tsx:65-134 | the recursive `for…in` loop pushing into `result` computes the transformation of the structure |
| SidebarNav.NonFilesEntries | components/sidebar/app-sidebar.tsx:97 | the keys kept are entries of the folder and none is `files` |
| SidebarNav.TransformEntryPerKey | components/sidebar/app-sidebar.tsx:96-131 | every key except `files` yields exactly one entry, in order |
| SidebarNav.TransformTitlesAndUrls | components/sidebar/app-sidebar.tsx:104-130 | each entry has its key capitalized as title, `basePath/key` with slashes collapsed as url (so no doubled slash), the key's icon, and an `items` list |
| SidebarNav.TransformHasItems | components/sidebar/app-sidebar.tsx:108-129 | every entry produced has an `items` list |
| SidebarNav.PageFolderLeadsWithMain | components/sidebar/app-sidebar.tsx:100-130 | a folder's items start with the "Main" link to its own url exactly when its `files` hold `page.tsx`; the rest are its sub-folders' entries |
| SidebarNav.EntryIconKeysKnown | components/sidebar/app-sidebar.tsx:104-130 | one key's entry and its links carry icon keys the map has |
| SidebarNav.TransformIconKeysKnown | components/sidebar/app-sidebar.tsx:65-134 | every icon key on the first two levels is in the icon map |
| SidebarNav.MapIconsToComponents | components/sidebar/app-sidebar.tsx:136-147 | one menu item per entry with its title, url, its icon and one link per sub-entry with title, url and icon |
| SidebarNav.SidebarIconsResolved | components/sidebar/app-sidebar.tsx:136-147 | for a transformed directory every icon of both levels resolves |
| AppSidebar.IconMapsAgree | components/app-sidebar.tsx:111-122 | the top-level component's map agrees with the sidebar's wherever defined and lacks exactly the layout-list and QR-code icons |
| AppSidebar.SpreadIcons | components/app-sidebar.tsx:125-134 | one item per entry, each with the icon of its key and one link per sub-entry with its icon |
| AppSidebar.SpreadLosesNothing | components/app-sidebar.tsx:125-134 | the spread keeps every field of both levels and the deeper `items`: dropping the icons gives back the entries |
| AppSidebar.VariantIconsResolved | components/app-sidebar.tsx:125-134 | even with the smaller map every icon of both levels of a transformed directory resolves |
| AppSidebar.TransformUsesSelectableKeys | components/app-sidebar.tsx:39-108 | only keys the smaller map has occur on the first two levels |
| AppSidebar.EntryUsesSelectableKeys | components/app-sidebar.tsx:39-108 | one key's entry and its links use only keys the smaller map has |

The sort-clause and grouping members of `ItemRoutes` take the whitelist and the
grouping key as parameters: the tags route uses `TagsColumns` and
`origin_table` (default `uncategorized`), while the table-data route
(`app/api/presupuestos/tableData/route.ts:6-31`, `:53-56`, `:123-130`) uses
`TableDataColumns` and `category` (default `Sin Categoría`). The
`transformDirectoryToNav`, `findIconKey` and `capitalizeFirstLetter` of
`components/app-sidebar.tsx` (lines 39-108, 45-68, 136-138) are the same code as
those of `components/sidebar/app-sidebar.tsx`, so `SidebarNav` models both
copies; `AppSidebar` models what differs.

## Left out

- Databases, the network and files: Prisma, Supabase, MySQL connections, `fetch`, `NextResponse` plumbing, file reads and writes. The models take the rows, strings or responses as inputs and return the statements or states. Out of scope, alongside the user interface.
- Table creation and the execution of inserts in the CSV and SQL upload routes (`createTableFromCSV`, `insertDataIntoTable`, `$executeRawUnsafe`): database I/O. Only the statement filter of the SQL route is modelled.
- `transformMySQLtoPostgres` in the SQL upload route, including its backtick replacement: a chain of regular-expression rewrites with no contract beyond "rewrite the syntax".
- Python's `float()`, JavaScript's `Number`, `parseFloat` and `parseInt`: modelled by a decimal-numeral recogniser (optional sign, digits, optional fraction). Exponents, hexadecimal, `Infinity` and `NaN` literals are not recognised. A failed parse (`NaN`) is `None`, and amounts are exact `real`s, not IEEE doubles.
- Python's text for a float: the parameter `fmt` of `SqlDump.RenderValue`. JavaScript's `toString` of a number: the `shown` text carried by `Migration.Value`.
- `Date.parse` and `new Date`: the date test is a parameter `isDate` (in `inferColumnType` and in the price filter of the migration script).
- `csv.reader` and its quoting, and the cp1252 file encoding of `test/script.py`: rows arrive as sequences of cells. A missing cell reads as absent, which stands for Python's `IndexError` guard and JavaScript's `undefined`.
- Regular expressions: `\s`, JavaScript's `trim()` and Python's `str.strip()` (test/script.py:13-19, test/script2.py:10) use the ASCII white-space set here; the real ones also strip Unicode white space (`\xa0`, `\x1c`–`\x1f`, `\x85`, the Unicode space separators), so a cell holding only such characters is blank in the programs but not in the model. `toLowerCase` and `toUpperCase` map ASCII letters only. The `findall` of `test/script2.py` is modelled by a table of match outcomes per position; no regular-expression engine is modelled.
- The 1000-row batching of the migration script, its connection handling, logging and row ordering by the database. The `insertId` answered by the items insert is a parameter of `Migration.InsertPrices`.
- `for…in` over an object: enumeration order is the order of the modelled entries. A `null` value in the directory structure, which throws a `TypeError` in the source, is not modelled.
- `SidebarNav.TransformDirectoryToNav`: requires every `files` entry to be a list, because for any other value the source's `includes` call throws. The unused `subfolders` computation and the React rendering of the menus are left out.
- The schema page's React state, drawing and dragging: only `parsePrismaSchema` and `getFilteredNodes` are modelled.
- Loading and error flags of the hooks, the refresh `fetch` after `saveMedicion` (`lib/hooks/useMedicion.ts:189`), `loadMedicion` and the POST in the `saveMedicion` of `PresupuestoContext`, and `handleSubmit` in `MedicionesEditor`: network I/O.
- In `MedicionesEditor`, the branch of `calculateAdvancementTotals` that reads stored columns (lines 145-157) and `totalBudget`: display-only values.
- `validateDateField` in `lib/utils/validation.ts`: it depends on `new Date`.
- `sortData` compares every cell as a string: table cells are strings here, so the undefined-value case of the comparator does not arise. `highlightText` (display) is left out.
- `duplicateSelected`: the random suffix of a copy's id is a parameter `copyId`. `handleSort`, the filter memo and rendering of the expandable table are left out.
- The tour's `scrollIntoView` and timers, and the `setTimeout` in the onboarding provider: presentation timing.
- The onboarding provider's `localStorage` persistence and its router navigation.
- `PresupuestoStore.Store.UpdatePresupuestoItem`: follows the corrected `UpdateItem`, which stores numbers, rather than the string-storing code as written (see Findings).
- The concurrent-miss behaviour of `lib/cache.ts`: the model runs one lookup at a time.
- PresupuestoHook.IdText: `String` of a numeric id (one that an edit of the id field left) is written out only for whole numbers below 10^21 in magnitude; a line holding any other numeric id matches no id in `FindById` and `Without`, whereas JavaScript compares its shortest decimal or exponent text.
- The enumeration order of a section object: the model keeps every tag in insertion order, whereas JavaScript lists integer-like keys (`"1"`, `"20"`) first, in ascending numeric order. Totals and per-section results do not depend on it; the order of `Object.keys` does.
- PresupuestoStore.UpdateItem: like `UpdateItemAsWritten`, `Store.UpdatePresupuestoItem` and the lemmas about them, requires the section `tag` to exist. For an absent tag `newItems[tag].findIndex` (lib/context/PresupuestoContext.tsx:95) throws a TypeError inside the state updater; that throw is not modelled.
- PresupuestoStore.RemoveItem: like `Store.RemoveItemFromSection` and `RemoveItemFilters`, requires the section to exist; `prev[tag].filter` (lib/context/PresupuestoContext.tsx:125) throws for an absent one, which is not modelled.
- PresupuestoStore.MedicionEdit: like `Store.UpdateMedicionItem`, `MedicionEditAccepted` and `MedicionEditRejects`, requires the section to exist; `newItems[tag].findIndex` on the copied measurement (lib/context/PresupuestoContext.tsx:141) throws for an absent one, which is not modelled.
- MedicionHook.UpdateResult: like `MedicionEditor.UpdateData`, `UpdateUnknownIsNoOp`, `UpdateOtherKeyIsNoOp` and `UpdatePresente`, requires the section to exist; `newData[tag].findIndex` (lib/hooks/useMedicion.ts:122) throws for an absent one, which is not modelled.
- TableTree.SortLevel: its contracts state a permutation in order; that rows equal on the sort column keep their input order, as the stable `Array.prototype.sort` promises, is not stated.
- Object keys inherited from `Object.prototype`: the model's maps hold only the keys written into them. In the grouping `reduce` (app/api/tagsWithElements/route.ts:124-127, app/api/presupuestos/tableData/route.ts:125-128) a category such as `constructor` or `toString` finds the inherited function, `.push` is not a function and the route answers 500, where `ItemRoutes.GroupBy` and `ItemRoutes.GroupItems` start a new group. At `routeLabels[segment]` (hooks/useBreadcrumbs.ts:58, :90) such a segment gets a function as its label, where `Breadcrumbs` shows the segment. At `acc[item.id] = …` (hooks/useMediciones.ts:59) an id `__proto__` replaces the prototype, not a key, where `MedicionesQuery` stores it.
- PresupuestoStore.Store.UpdatePresupuestoItem, PresupuestoStore.Store.UpdateMedicionItem and MedicionHook.MedicionEditor.UpdateData: `{ ...prev }` copies only the outer object, so `newItems[tag][itemIndex] = …` (lib/context/PresupuestoContext.tsx:108, :158; lib/hooks/useMedicion.ts:136) also writes into the section array of the previous state. The methods state the new state only; that the old state's array is changed too, and anything else holding it sees the edit, is not captured, since sections are values here.
- String lengths and order in UTF-16 code units: JavaScript's `.length`, `substring` and `<` count and compare UTF-16 code units, while the model's strings are sequences of characters. A value with characters outside the Basic Multilingual Plane is therefore shorter here than in the route, which can move it across the 191 and 50 bounds of `CsvUpload.StringType` (app/api/wip/upload-csv/route.ts:58), change the prefix `MedicionesEditor.Take` returns, and change the order `TableTree.StrLess` gives.

## Findings

| source | as written | input that shows it | evidently intended | confidence | as-written member | corrected member |
|---|---|---|---|---|---|---|
| lib/context/PresupuestoContext.tsx:99 | the raw string `value` is stored for every key, including `total`, so `calculateTotals` later concatenates instead of adding | editing the `total` of an existing line to `"5"`: the section sum becomes text | store numeric fields as numbers, so the totals stay numeric | not executed | PresupuestoStore.TotalEditMakesTextSum | PresupuestoStore.UpdateKeepsTotalsNumeric |
| lib/utils/validation.ts:44-47 | the guard tests `Number(id)`, which is 0 for a blank id, and the result is `parseInt(id, 10)` | `id = "  "`: the guard passes and the result is `NaN` | reject every id that does not parse as an integer | not executed | Validation.BlankIdIsNaN | Validation.BlankIdRejected |
| app/api/tagsWithElements/route.ts:143-146 | `Object.values(data).every(...)` also sees the numeric `total`, which is not an array | a page with no rows: the four lists are empty and the route still answers 200 | answer 404 when the four buckets are empty | not executed | ItemRoutes.TagsNever404 | ItemRoutes.TagsStatusSound |
| app/api/upload-sql/route.ts:73-75 | a doubled quote inside a string is collapsed to one quote (also for `""` at lines 86-88) | `'it''s'` becomes `'it's'`, which no longer closes its string | keep both quotes, so the statement keeps the escape | not executed | SqlUpload.DoubledQuoteCollapses | SqlUpload.DoubledQuoteKept |
