# A verified model of the SQLite TSV viewer's core

This project models, in Dafny, the deterministic logic of a small desktop tool. The tool imports tab-separated files into SQLite tables, browses them page by page, searches them, ranks search results by similarity and exports them as CSV. Four Java classes hold that logic, and each has its own Dafny modules:

- **DOperator** (`Identifiers`, `Statements`, `Coercion`).
  - `escapeColumnName` quotes SQL reserved words.
  - The class builds the SQL text of `CREATE TABLE`, `INSERT`, the paged and searched `SELECT`, the top-N `SELECT` and the `COUNT` query, together with their bound parameters.
  - It coerces each text field to the value it binds, according to the column's declared type.
  - The database is not modelled. A statement is the text and the parameter list the code would hand to JDBC. The success or failure of executing it is a parameter.
- **TSVImporter** (`Inference`, `Importer`).
  - Column-type inference is a three-flag vote.
  - Default and processed headers are modelled.
  - `importTSV` is a state machine. It samples the first 1000 rows, creates the table, then inserts the rest in batches of 1000 and reports progress after each batch.
  - The import's effect is the sequence of calls it makes on the operator and on the progress callback. `Importer.Import` gives that sequence as a function of the parsed lines, and `Importer.ImportTsv` is the loop, proved equal to it.
- **CSVExporter** (`CsvExport`). Cell escaping follows section 2 of RFC 4180 (rules 6 and 7). A row line is the escaped cells joined by `,`, and the export is the header line followed by one line per row. A decoder for such lines gives the round trip.
- **MainView** (`MainView`, `Ranking`).
  - `MainView.ViewState` holds the window's paging and search state: `currentPage`, `totalPages`, `totalRecords`, `currentTable` and the current search fields and values.
  - Its operations are table loading, page stepping, the page-jump dialog's bounds, search, the refresh after an insert or an import, and the advanced search.
  - The advanced search's ranking is a stable descending sort of the scored rows, cut to the first 100.
  - Also modelled: the table-name validator, the page label, and the field-count check of "add data".

`Strings` holds the Java `String` behaviour the code relies on:

- `trim`, which removes characters up to `' '`;
- `split` with its trailing-empty-string removal;
- ASCII `toUpperCase` and `toLowerCase`;
- `Integer.parseInt`, which reads decimal digits of any script as `Character.digit` does, and `Integer.toString`;
- 32-bit `int` wrap-around.

Where the intended behaviour differs from the code, the model follows the code:

- A column none of whose sampled values is present or non-blank is inferred `INTEGER`, because all three flags stay true. The intended rule types such a column `TEXT`. See `Inference.EmptyColumnIsInteger`.
- After the table is created, the sample buffer is cleared. The next 1000 rows therefore refill it instead of going to the batch. The final branch only handles an import that never created its table, so those rows (the 1002nd to the 2001st data row) are never inserted or counted.
  - The intended behaviour reports every row. A 2500-row file should report 1000, 2000 and 2500.
  - The code reports 1000 and then 1500. See `Importer.ExpectedInserted` and `Importer.ReportsOfTwoAndAHalfThousandRows`.

Paths below are relative to the repository root. Every source file is under `sourcecode/src/main/java/org/example/`.

## Model

| member | source | states |
|---|---|---|
| Strings.Wrap32 | sourcecode/src/main/java/org/example/MainView.java:227 | Java `int` addition: the result is a 32-bit value congruent to the true sum modulo 2^32, and equal to it when it fits |
| Strings.TrimShape | sourcecode/src/main/java/org/example/MainView.java:206-208 | `trim` removes exactly a leading and a trailing run of characters up to `' '`; what remains has no such character at either end |
| Strings.TrimIdempotent | sourcecode/src/main/java/org/example/TSVImporter.java:188-193 | trimming a trimmed string changes nothing |
| Strings.UndoubleDoubleQuotes | sourcecode/src/main/java/org/example/CSVExporter.java:66-69 | replacing `""` by `"` undoes doubling every `"` |
| Strings.JoinSplitAll | sourcecode/src/main/java/org/example/MainView.java:199 | splitting on a character and joining the pieces with it gives the string back |
| Strings.JavaSplit | sourcecode/src/main/java/org/example/MainView.java:199 | `String.split` on one character: no piece holds the separator, and trailing empty pieces are dropped |
| Strings.JavaSplitJoin | sourcecode/src/main/java/org/example/MainView.java:199 | splitting the join of separator-free values whose last one is non-empty gives exactly those values back |
| Strings.ParseInt | sourcecode/src/main/java/org/example/MainView.java:155 | `Integer.parseInt`: an accepted string is non-empty, has no blank at either end, and denotes a 32-bit value |
| Strings.RemoveChars | sourcecode/src/main/java/org/example/DOperator.java:335 | `replaceAll("[...]", "")`: no character of the set is left, and every other character occurs as often as before |
| Strings.RemoveCharsOfOne | sourcecode/src/main/java/org/example/DOperator.java:335 | one character is dropped if it is in the set and kept otherwise |
| Strings.RemoveCharsAppend | sourcecode/src/main/java/org/example/DOperator.java:335 | removal works piece by piece over a concatenation, so with the one-character case it keeps the other characters in order |
| Strings.RemoveCharsAbsent | sourcecode/src/main/java/org/example/MainView.java:1177 | a string with no character of the set is left unchanged |
| Strings.DecimalDigit | sourcecode/src/main/java/org/example/MainView.java:155 | `Character.digit(c, 10)`: a value in 0..9 for a decimal digit, -1 otherwise; an ASCII digit has its usual value and no digit is a blank or a sign |
| Strings.FullwidthDigitValue | sourcecode/src/main/java/org/example/MainView.java:155 | each fullwidth digit `０`..`９` has its value |
| Strings.ArabicIndicDigitValue | sourcecode/src/main/java/org/example/DOperator.java:320 | each Arabic-Indic digit has its value |
| Strings.ParseIntReadsFullwidth | sourcecode/src/main/java/org/example/DOperator.java:320 | `Integer.parseInt` reads the fullwidth `１２` as 12 |
| Strings.ParseIntReadsArabicIndic | sourcecode/src/main/java/org/example/TSVImporter.java:234 | `Integer.parseInt` reads a signed Arabic-Indic number |
| Strings.ParseIntRejectsLetterAfterDigit | sourcecode/src/main/java/org/example/MainView.java:155 | a non-digit after a digit makes the parse fail |
| Strings.ParseIntOfIntToString | sourcecode/src/main/java/org/example/MainView.java:652 | every 32-bit int printed in decimal parses back to itself |
| Identifiers.ContainsIsMembership | sourcecode/src/main/java/org/example/DOperator.java:16-35 | the reserved-word test is membership in the listed set |
| Identifiers.ReservedWordShape | sourcecode/src/main/java/org/example/DOperator.java:16-35 | every reserved word is non-empty, does not start with `"`, and has no `_` at index 6, so no escaped name and no `column_<n>` header is reserved |
| Identifiers.EscapeChangesOnlyReserved | sourcecode/src/main/java/org/example/DOperator.java:43-49 | `escapeColumnName` changes a name if and only if its upper-cased form is reserved |
| Identifiers.EscapeRoundTrip | sourcecode/src/main/java/org/example/DOperator.java:43-49 | a reserved name becomes a double-quoted identifier whose inside, with `""` read as `"`, is the name |
| Identifiers.QuotedIsNotReserved | sourcecode/src/main/java/org/example/DOperator.java:16-35 | a string starting with `"` is never reserved |
| Identifiers.EscapeIdempotent | sourcecode/src/main/java/org/example/DOperator.java:43-49 | escaping an escaped name changes nothing |
| Identifiers.EscapeAddsOnlyQuotes | sourcecode/src/main/java/org/example/DOperator.java:43-49 | escaping adds no character other than `"` |
| Statements.TableColumns | sourcecode/src/main/java/org/example/DOperator.java:57-81 | the loop over the table's columns yields the kept columns in schema order |
| Statements.KeptColumnsExact | sourcecode/src/main/java/org/example/DOperator.java:65-74 | a column is kept if and only if it is not the `id` primary key (`pk == 1` and name `id` in any case) |
| Statements.KeptColumnsAppend | sourcecode/src/main/java/org/example/DOperator.java:65-74 | filtering is column by column: the kept columns of two schemas put together are the two filtered lists, in order |
| Statements.CreateTable | sourcecode/src/main/java/org/example/DOperator.java:224-255 | with mismatched key and type counts there is no statement and the result is false; otherwise the statement is the `CREATE TABLE IF NOT EXISTS` text with an `id` primary key and the escaped keys and types in order |
| Statements.AppendJoined | sourcecode/src/main/java/org/example/DOperator.java:280-294 | the `StringBuilder` loop appends the parts separated by the separator, with none trailing |
| Statements.BuildInsertSql | sourcecode/src/main/java/org/example/DOperator.java:276-298 | the two `StringBuilder` loops give `INSERT INTO <esc(table)> (<esc(c1)>, …) VALUES (?, …);` over the kept columns in order |
| Statements.BindRow | sourcecode/src/main/java/org/example/DOperator.java:306-350 | the nested binding loop binds, for every column, the coerced value of the field at that column |
| Statements.BoundRowIgnoresExtraFields | sourcecode/src/main/java/org/example/DOperator.java:306-307 | fields beyond the column count do not change the bound values |
| Statements.BoundRowPadsWithNull | sourcecode/src/main/java/org/example/DOperator.java:347-349 | a column past the end of a short row is bound to NULL |
| Statements.BindRows | sourcecode/src/main/java/org/example/DOperator.java:305-352 | one bound row per input row, in order |
| Statements.BatchInsert | sourcecode/src/main/java/org/example/DOperator.java:264-363 | null or empty rows: nothing happens; no columns: an error; otherwise the INSERT over the kept columns and one bound row per input row, with `annotations` cleaned |
| Statements.Insert | sourcecode/src/main/java/org/example/DOperator.java:551-637 | the same for one row, except that `annotations` is not cleaned |
| Statements.InsertPlaceholdersMatchColumns | sourcecode/src/main/java/org/example/DOperator.java:276-298 | the INSERT text has exactly one `?` per column, so every bound value has its placeholder |
| Statements.AppendFilter | sourcecode/src/main/java/org/example/DOperator.java:130-144 | the WHERE loop appends `esc(f1) LIKE ? AND …` and binds each search value, only when both arrays are non-null, non-empty and of equal length |
| Statements.BindSearchValues | sourcecode/src/main/java/org/example/DOperator.java:155-159 | one string parameter per search value, in order |
| Statements.Select | sourcecode/src/main/java/org/example/DOperator.java:125-191 | the paged SELECT: the filter, then `LIMIT ? OFFSET ?` bound to `pageSize` and the 32-bit `(page-1)*pageSize` |
| Statements.SelectTopN | sourcecode/src/main/java/org/example/DOperator.java:647-712 | the top-N SELECT: the filter, then `LIMIT ?` bound to the limit |
| Statements.TotalRecordsWithSearch | sourcecode/src/main/java/org/example/DOperator.java:498-542 | the filtered COUNT, and without a search the plain `getTotalRecords` count |
| Statements.FilterMarks | sourcecode/src/main/java/org/example/DOperator.java:136-159 | the WHERE text has exactly as many `?` as the filter binds parameters |
| Statements.SelectHasOnePlaceholderPerParam | sourcecode/src/main/java/org/example/DOperator.java:135-163 | for a table and fields without `?`, the paged SELECT has one placeholder per bound parameter |
| Statements.TopNHasOnePlaceholderPerParam | sourcecode/src/main/java/org/example/DOperator.java:657-684 | the same for the top-N SELECT |
| Statements.CountHasOnePlaceholderPerParam | sourcecode/src/main/java/org/example/DOperator.java:510-528 | the same for the filtered COUNT |
| Coercion.DeclaredTypeNames | sourcecode/src/main/java/org/example/DOperator.java:309-331 | the four type names the importer declares each fall into exactly one branch of the coercion |
| Coercion.Coerce | sourcecode/src/main/java/org/example/DOperator.java:316-346 | NULL exactly when an INTEGER/INT field does not parse or a REAL/FLOAT/DOUBLE field is not a double; a parsed INTEGER binds the parsed number and an accepted REAL its own text; a BOOLEAN is true iff the text is `true` in any case; any other type binds the text, with `{`, `}` and `'` removed from an `annotations` column under batch insert |
| Coercion.FieldValue | sourcecode/src/main/java/org/example/DOperator.java:306-349 | NULL exactly for a missing field, a blank field or a failed number parse; a present, non-blank BOOLEAN field is never NULL |
| Coercion.TextFieldIsTrimmedText | sourcecode/src/main/java/org/example/DOperator.java:308-340 | a text column other than a cleaned `annotations` stores exactly the trimmed field |
| Coercion.AnnotationsFieldIsCleaned | sourcecode/src/main/java/org/example/DOperator.java:333-336 | under batch insert an `annotations` text column binds the trimmed field with no `{`, `}` or `'` left and every other character kept as often as it occurs |
| Coercion.IntegerFieldRoundTrip | sourcecode/src/main/java/org/example/DOperator.java:318-321 | an INTEGER column binds every printed 32-bit int as that int |
| Inference.InferTypeForColumn | sourcecode/src/main/java/org/example/TSVImporter.java:217-271 | the flag loop, with its early exit, gives the first true flag among INTEGER, REAL, BOOLEAN taken over all samples, else TEXT |
| Inference.FlagsStep | sourcecode/src/main/java/org/example/TSVImporter.java:232-258 | one more sample clears a flag exactly when its present value fails that flag's test, so a flag only goes from true to false |
| Inference.MoreRowsOnlyDemote | sourcecode/src/main/java/org/example/TSVImporter.java:232-258 | a flag that holds for more samples holds for fewer |
| Inference.EmptyColumnIsInteger | sourcecode/src/main/java/org/example/TSVImporter.java:223-229 | a column with no present, non-blank sample is INTEGER |
| Inference.InferredTypeKeepsSampledValues | sourcecode/src/main/java/org/example/TSVImporter.java:217-271 | under the inferred type, no present sampled value is bound as NULL |
| Inference.InferColumnTypes | sourcecode/src/main/java/org/example/TSVImporter.java:202-208 | exactly one inferred type per column, in column order |
| Inference.GenerateDefaultHeaders | sourcecode/src/main/java/org/example/TSVImporter.java:174-180 | the headers are `column_1` to `column_n` |
| Inference.DefaultHeadersDistinct | sourcecode/src/main/java/org/example/TSVImporter.java:174-180 | default headers are pairwise distinct |
| Inference.ProcessHeaders | sourcecode/src/main/java/org/example/TSVImporter.java:188-193 | each header is replaced in place by the escape of its trim |
| Inference.ProcessHeadersIdempotent | sourcecode/src/main/java/org/example/TSVImporter.java:188-193 | processing processed headers changes nothing, so the repeated calls agree |
| Inference.DefaultHeadersAreProcessed | sourcecode/src/main/java/org/example/TSVImporter.java:84-90 | processing the default headers leaves them unchanged |
| Importer.ImportTsv | sourcecode/src/main/java/org/example/TSVImporter.java:48-139 | the loop over the lines makes exactly the calls, and ends with exactly the outcome, that `Import` gives for the file and the operator's answers |
| Importer.CreateWithSamples | sourcecode/src/main/java/org/example/TSVImporter.java:84-101 | the creation step: processed headers, one inferred type per header, then the sampled rows as a batch and the first report |
| Importer.ImportCallsOrder | sourcecode/src/main/java/org/example/TSVImporter.java:79-137 | the call sequence starts with the one `createTable`, creates nothing after it, and every report gives the total and exactly the rows inserted before it; the inserted rows are the first 1001 data rows and those after the 2001st |
| Importer.ImportRunOrder | sourcecode/src/main/java/org/example/TSVImporter.java:48-139 | every run, including one that stops on an exception, keeps that order, and the rows it inserted are a prefix of those |
| Importer.WellOrderedPrefix | sourcecode/src/main/java/org/example/TSVImporter.java:48-139 | any prefix of a well-ordered call sequence is well-ordered, so the order holds at every moment of the run |
| Importer.ReportsNonDecreasing | sourcecode/src/main/java/org/example/TSVImporter.java:97-110 | reported progress never decreases |
| Importer.ReportsOfTwoAndAHalfThousandRows | sourcecode/src/main/java/org/example/TSVImporter.java:79-137 | a 2500-row file reports 1000 and then 1500 |
| Importer.BatchCallsInsert | sourcecode/src/main/java/org/example/TSVImporter.java:103-110 | the batches insert the given rows, in order, each followed by its report |
| Importer.CompletedRun | sourcecode/src/main/java/org/example/TSVImporter.java:48-139 | a run in which every call succeeds completes with the whole call sequence |
| Importer.InsertFailedRun | sourcecode/src/main/java/org/example/TSVImporter.java:103-110 | a `batchInsert` that throws ends the run right after the calls before it |
| CsvExport.EscapeCsvChangesExactlyQuoted | sourcecode/src/main/java/org/example/CSVExporter.java:64-70 | a cell changes if and only if it contains `,`, `"` or a line feed |
| CsvExport.CarriageReturnIsNotQuoted | sourcecode/src/main/java/org/example/CSVExporter.java:65 | a lone carriage return does not cause quoting |
| CsvExport.EscapeCsvRoundTrip | sourcecode/src/main/java/org/example/CSVExporter.java:64-70 | a quoted cell is `"…"` whose inside, with `""` read as `"`, is the cell; an unquoted cell is unchanged and has no `,` or `"` |
| CsvExport.EscapeVectorToCsv | sourcecode/src/main/java/org/example/CSVExporter.java:47-56 | the header loop writes the escaped cells joined by single commas, with no trailing separator |
| CsvExport.RowString | sourcecode/src/main/java/org/example/CSVExporter.java:26-34 | the row loop does the same, with a null cell written as empty |
| CsvExport.ExportToCsv | sourcecode/src/main/java/org/example/CSVExporter.java:18-39 | 1 + rows lines: the header line, then each row's line in input order |
| CsvExport.ReadFieldOfEscaped | sourcecode/src/main/java/org/example/CSVExporter.java:64-70 | a reader following section 2 of RFC 4180 reads any escaped cell back as the cell, stopping at the next comma |
| CsvExport.DecodeCsvLine | sourcecode/src/main/java/org/example/CSVExporter.java:47-56 | decoding a written line gives back exactly its cells |
| CsvExport.ExportedRowReadsBack | sourcecode/src/main/java/org/example/CSVExporter.java:18-39 | each non-empty exported row reads back as its cells' texts |
| CsvExport.EmptyRowIsOneEmptyCell | sourcecode/src/main/java/org/example/CSVExporter.java:26-34 | an empty row and a row of one empty cell both give the empty line |
| Ranking.SortByRank | sourcecode/src/main/java/org/example/MainView.java:1189 | the in-place sort leaves a permutation ordered by descending score, with equal scores in fetch order |
| Ranking.TopRanked | sourcecode/src/main/java/org/example/MainView.java:1180-1201 | min(N, 100) distinct fetched rows, each with its own score; scores non-increasing, ties in fetch order; every row left out ranks after every row kept |
| Ranking.RankedBeforeRest | sourcecode/src/main/java/org/example/MainView.java:1189-1192 | the row at each place ranks before every row not placed at or before it |
| Ranking.RankingIsUnique | sourcecode/src/main/java/org/example/MainView.java:1189-1192 | any two results meeting that description are identical, so the description determines the ranking |
| Ranking.SearchKeyword | sourcecode/src/main/java/org/example/MainView.java:1177 | the keyword has no `%` |
| Ranking.KeywordOfPattern | sourcecode/src/main/java/org/example/MainView.java:1136-1137 | the `%k%` pattern built for the search gives back the lower-cased k as the keyword |
| Ranking.IndexOf | sourcecode/src/main/java/org/example/MainView.java:1171 | `indexOf`: -1 exactly when the name is absent, otherwise the first position holding it |
| MainView.ValidTableNameChars | sourcecode/src/main/java/org/example/MainView.java:442-444 | a name is valid if and only if it is non-empty, starts with an ASCII letter or `_`, and continues with letters, digits or `_` |
| MainView.ValidTableNameIsPlain | sourcecode/src/main/java/org/example/MainView.java:384 | a valid name has no `?`, `"` or blank, is its own trim, and adds no placeholder to a statement |
| MainView.PageCount | sourcecode/src/main/java/org/example/MainView.java:608-609 | at least one page, enough pages for all records, and no page beyond the last record |
| MainView.PageCountIsLeast | sourcecode/src/main/java/org/example/MainView.java:608-609 | the page count is the least count of at least one page that holds every record |
| MainView.PageStartsInsideRecords | sourcecode/src/main/java/org/example/MainView.java:608-609 | every page from 1 to the page count starts at an offset without overflow, inside the records |
| MainView.StepPageMoves | sourcecode/src/main/java/org/example/MainView.java:226-234 | a page step stays within 1..totalPages, and it moves if and only if the target is in range, landing exactly on it |
| MainView.LabelButtonsMatchSteps | sourcecode/src/main/java/org/example/MainView.java:651-655 | "previous" is enabled exactly when a step back moves, and "next" exactly when a step forward moves |
| MainView.LabelReadsBack | sourcecode/src/main/java/org/example/MainView.java:651-652 | the label `c / t` splits into three words that parse back as c and t |
| MainView.JumpTarget | sourcecode/src/main/java/org/example/MainView.java:150-169 | cancelled exactly when the dialog returns null; a jump always lands on a different page within 1..totalPages |
| MainView.JumpToTypedPage | sourcecode/src/main/java/org/example/MainView.java:153-164 | typing any other in-range page number, even with surrounding blanks, jumps to it |
| MainView.JumpToFullwidthPage | sourcecode/src/main/java/org/example/MainView.java:150-169 | a page number typed in fullwidth digits, as a CJK input method produces, is jumped to |
| MainView.AddData | sourcecode/src/main/java/org/example/MainView.java:171-208 | the split-and-trim loop gives the outcome of the checks: no table, no columns, empty input, count mismatch, or the trimmed values |
| MainView.TrimParts | sourcecode/src/main/java/org/example/MainView.java:206-208 | the loop over the split array replaces every value by its trimmed text, in order, and keeps the count |
| MainView.InsertedRowShape | sourcecode/src/main/java/org/example/MainView.java:196-208 | an inserted row has one value per column, none containing a comma or edge blanks |
| MainView.AddDataRoundTrip | sourcecode/src/main/java/org/example/MainView.java:196-208 | typing a full row's values joined by commas inserts exactly those values |
| MainView.TrailingEmptyValueIsDropped | sourcecode/src/main/java/org/example/MainView.java:199-201 | an empty last value is dropped by `split`, so `a,b,` for three columns is a count mismatch |
| MainView.AdvancedGate | sourcecode/src/main/java/org/example/MainView.java:1164-1187 | ranking happens if and only if there are columns and rows, the first field is a column every row has, and a value exists; the field is then the first index of that column, and the keyword has no `%` |
| MainView.UltraFindKeyword | sourcecode/src/main/java/org/example/MainView.java:1136-1177 | a similarity search over a known column ranks on that column by the lower-cased keyword |
| MainView.ViewState.constructor | sourcecode/src/main/java/org/example/MainView.java:39-54 | a new window is on page 1 of 1, with no table, no records and no search |
| MainView.ViewState.LoadTable | sourcecode/src/main/java/org/example/MainView.java:597-618 | choosing a table resets to page 1 of its page count and clears the search, but the first page is fetched with the previous search filter |
| MainView.ViewState.LoadTableUnfiltered | sourcecode/src/main/java/org/example/MainView.java:597-618 | the corrected load: the same state, and the first page is fetched unfiltered |
| MainView.ViewState.RefreshAfterImport | sourcecode/src/main/java/org/example/MainView.java:418-425 | the guarded block alone, when the imported table is the one on show: page 1 of the new page count, table and search as they were at that point, the page reloaded |
| MainView.ViewState.ImportDone | sourcecode/src/main/java/org/example/MainView.java:413-427 | after an import the rebuilt list's first table is loaded (loadTables selects index 0, lines 320-339, and the list listener loads it, lines 582-589): that table on page 1 of its page count, search cleared, its first page fetched with the old filter; the refresh follows only when the imported name is that first table, and then fetches page 1 unfiltered; with an empty list the table on show is refreshed if it is the imported one and nothing changes otherwise |
| MainView.ViewState.ChangePage | sourcecode/src/main/java/org/example/MainView.java:226-234 | the page becomes the stepped page, reloaded only when it moved (or the step was 0); nothing else changes |
| MainView.ViewState.PageJump | sourcecode/src/main/java/org/example/MainView.java:150-169 | the page becomes the dialog's target on a jump, otherwise it stays and nothing is reloaded |
| MainView.ViewState.PerformSearch | sourcecode/src/main/java/org/example/MainView.java:497-521 | the search queries page 1 with the filter; on failure nothing changes; otherwise page 1, the filtered count and the new search are recorded, and if counting throws, the page is 1 and the rest is unchanged |
| MainView.ViewState.RefreshAfterInsert | sourcecode/src/main/java/org/example/MainView.java:210-218 | in search mode the current search runs again, otherwise the current page is reloaded unchanged |
| MainView.ViewState.ExecuteAdvancedSearch | sourcecode/src/main/java/org/example/MainView.java:1156-1220 | fetches at most 1000 filtered rows; when the gate allows, shows their ranking on a single page of that many records and enters search mode; otherwise nothing changes |
| MainView.StaleSearchFiltersNewTable | sourcecode/src/main/java/org/example/MainView.java:612-617 | with a search active, the first page `loadTableData` fetches differs from the unfiltered one and binds the old search values |
| MainView.FirstPageIsUnfiltered | sourcecode/src/main/java/org/example/MainView.java:638 | the unfiltered first page binds only the page size and offset 0 |

## Left out

- Executing statements is not modelled: JDBC, SQLite, `PRAGMA table_info` results, transactions and result-set reading. A statement is modelled as its text and parameters; the table's schema rows and the success of each call are inputs.
- `createDatabase`, `checkConnect`, `setPath`, `getAllTableNames`, `getAllRecords`, `search` and `getTableColumnNames` only run a fixed query or read results, so they have no logic to model. `getTablePageData` and `getTotalRecords` build the same text as the unfiltered `Select` and `TotalRecordsWithSearch`.
- `parseLine` delegates to Apache Commons CSV. Each line of the file is given already parsed: its fields, or a failure.
- `countTotalRecords` and all file reading and writing are inputs. The total record count is the number of data lines, and the export is a sequence of lines without `BufferedWriter.newLine`.
- `Double.parseDouble`'s accepted syntax is a predicate parameter.
- Strings.DecimalDigit: the digits `Integer.parseInt` accepts are the Basic Multilingual Plane's decimal digits (category Nd) as of Unicode 7.0, the table Java 9 and later use. Under Java 8 the Sinhala Lith and Myanmar Tai Laing digits are not digits. The table is written out, not derived from the Unicode database.
- `calculateSimilarity` (Levenshtein and Jaro-Winkler), `parallelStream` and the `%.2f` formatting of the score are not modelled. The score is a real-valued function parameter.
- Ranking.SortByRank: compares scores as reals, so `Double.compare`'s treatment of NaN and of -0.0 against 0.0 is not modelled.
- Case mapping (`toUpperCase`, `toLowerCase`, `equalsIgnoreCase`) covers ASCII only. `trim` is modelled exactly.
- Swing is not modelled: dialogs, menus, clipboard, table rendering (`updateTable`, `updateTableWithDatabaseData`), `SwingWorker` threading and the progress-bar percentage. `ExportOptionsDialog` and the UltraFind/Search dialogs are covered only through the values they hand over.
- MainView.ViewState.ImportDone: the early return of `loadTables` when no database is open (MainView.java:322) is not modelled, because an import is refused before it starts without one (line 347); the two record counts read for the table on show are taken to be the same value.
- CsvExport.RowString: a cell is its text or null. A non-string cell (`Integer`, `Double`, `byte[]`) is written through `Object.toString` at CSVExporter.java:30. That conversion is not modelled: such a cell is taken as already turned into its text.
- Cells in the advanced search are strings, so a null cell's `toString` failing is not modelled; a row shorter than the searched field is the modelled failure.

## Findings

| source | as written | input that shows it | evidently intended | confidence | as-written member | corrected member |
|---|---|---|---|---|---|---|
| sourcecode/src/main/java/org/example/MainView.java:597-618 | `loadTableData` fetches the new table's first page (`updateTable`, line 612) before clearing the search (lines 616-617) | a search on `name` is active and the user picks another table: its first page is fetched with `name LIKE ?` and the old value, while the page count is unfiltered | the new table's first page is fetched without a filter | not executed; high | MainView.ViewState.LoadTable, MainView.StaleSearchFiltersNewTable | MainView.ViewState.LoadTableUnfiltered |
