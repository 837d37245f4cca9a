# GGV settlement generator: the settlement-text pipeline in Dafny

The GGV settlement generator reads the text of a Norwegian "Gi Gaven Videre"
settlement statement and turns it into:

- organisation records, each with a gift count, an amount and a percentage;
- a stated total;
- the recipient;
- a verdict comparing the records' total with the stated total.

The browser copy (`app.js`) shows the results and offers them as a CSV file.
The Apps Script copy (`Code.js`) merges them into the active spreadsheet.
Both copies run the same pipeline, but they use different regular expressions
and defaults, so `Patterns.Copy` (`Browser` or `AppsScript`) selects one.

The project models that pipeline and proves what it promises.

| module | models |
|---|---|
| `Text` | The JavaScript string primitives the pipeline uses: the `\s`, `\d` and `.` classes, `trim`, the `/\s+/g` collapse, `split` and `join`. |
| `Search` | How a backtracking matcher chooses: the leftmost start, greedy runs longest first, lazy runs shortest first. Also the global `exec` scan (`while ((m = re.exec(s)) !== null)`) and a first-with-a-value search over a list. |
| `Patterns` | The organisation-line pattern, the multi-line fallback, the cost-contribution pattern and its line fallback. Each is a function giving the match at a position, plus a leftmost search. |
| `SumPatterns` | The two total patterns. |
| `RecipientPatterns` | The four recipient patterns: three in the browser copy, one in the Apps Script copy. |
| `Numbers` | `parseInt` of digit captures, `parseFloat` on exact reals (NaN is `None`), and the two number clean-ups. Amount captures lose every white-space character, comma and period. Total captures lose their white space and have their first comma replaced by a point. |
| `Extraction` | `extractInformationFromPDFText`: three passes appending to one list. |
| `Totals` | `extractSumFromPDFText`. |
| `Reconcile` | `calculateTotal` and the three-way verdict. |
| `Recipient` | `extractRecipientCompanyFromPDFText` in both copies. |
| `Csv` | The text `exportToCSV` builds. |
| `Sheet` | `writeToGoogleSheet` and `resetButton` on a grid of cell texts. The sheet is a class whose methods change the grid in place. Each method is proved equal to a function of the old grid, and the lemmas beside those functions state what each cell holds afterwards. |

The loops of the source are methods with invariants:

- the `exec` loops (`ScanLines`, `ScanWraps`, `Search.ScanRecords`);
- the reversed-lines loop (`Totals.FromEnd`);
- the recipient pattern loop (`Recipient.ExtractRecipient`);
- the `csv +=` loop (`Csv.ExportToCsv`);
- the sheet's `forEach`, range writes and clears.

The pure parts are functions, with lemmas about them.

Some behaviour of the code is easy to misread; the model follows the code as written:

- **The tolerance.** The mismatch test is the strict `Math.abs(sum - calculatedTotal) > 0.01`, so a difference of exactly 0.01 counts as success (`Reconcile.CheckCases`).
- **Empty amounts.** Only the browser copy replaces an empty number by 0 (`company.number || 0`). In the Apps Script copy `parseFloat("")` is NaN, and one such record makes the whole total NaN (`Reconcile.TotalOfDigits`).
- **Two number clean-ups.**
  - Amount captures lose every white-space character, comma and period, so a decimal comma is lost. The `.replace(',', '.')` after that never fires (`Numbers.AmountCommaReplaceIsDead`).
  - Total captures lose only their white space, and their first comma becomes a point. So `10 000` reads as 10000 and `1234,50` as 1234.5, but a period stays a decimal point: `10.000` reads as 10 (`Numbers.SumValueOfGroups`, `Numbers.SumValueOfDecimalComma`, `Numbers.SumValueOfDecimalPoint`).
- **Recipient clean-up.** The browser copy trims the capture and collapses its white space. It cuts a result longer than 50 to its first four words, where the length counts UTF-16 code units as JavaScript's `length` does. Nothing else is removed. The Apps Script copy only trims.

## Model

| member | source | states |
|---|---|---|
| Extraction.ExtractInformation | app.js:214-273 | The list is the organisation-line records in text order, then the fallback records in text order, then the cost entry if any, for either copy. |
| Extraction.ScanLines | app.js:221-230 | The `exec` loop of the main pattern pushes exactly one record per match of the global scan, in order. |
| Extraction.ScanWraps | app.js:233-240 | The `exec` loop of the multi-line fallback pushes exactly one record per match of its global scan, in order. |
| Extraction.CostEntry | app.js:243-265 | The third pass yields the cost entry from the whole-text pattern, or else from the first line holding the exact name, or else nothing. |
| Extraction.LineScanOrdered | app.js:221-223 | Every match the global scan reports is a match of the pattern at its start; the matches come in text order and do not overlap. |
| Extraction.LineScanComplete | app.js:221-223 | The scan misses no match: every position where the pattern matches lies inside a reported match. |
| Extraction.WrapScanOrdered | app.js:233-235 | The same for the fallback pattern: reported matches are real, in text order, without overlap. |
| Extraction.WrapScanComplete | app.js:233-235 | Every position where the fallback pattern matches lies inside a reported fallback match. |
| Extraction.LineEntry | app.js:223-230 | Record k of the first pass is made from the k-th match of the scan, which is a match of the pattern at its start. |
| Extraction.WrapEntry | app.js:235-240 | Record k of the second pass is made from the k-th fallback match. |
| Extraction.LineCompanyFields | app.js:224-229 | The name keeps all the text of the capture and is trimmed. In the browser copy it is the collapse of the trimmed capture, so its only white space is single spaces. In the Apps Script copy (Code.js:71-79) it is the trimmed capture itself. The number is the amount's digits in order. The counts are the decimal values of their digit captures. |
| Extraction.WrapCompanyFields | app.js:236-239 | A fallback name is trimmed and holds the text of both name parts, in order. The number is the amount's digits; the record has no counts. |
| Extraction.CompaniesLength | app.js:217-265 | Nothing is dropped or merged: the length is the number of line matches plus the number of fallback matches plus at most one cost entry. |
| Extraction.CostEntryFields | app.js:246-264 | A cost entry is named exactly "Kostnadsbidrag til Gi Gaven Videre", has a digit-string number and no counts. |
| Extraction.CostEntryFromPattern | app.js:243-250 | When the case-insensitive pattern matches anywhere, the entry always exists and comes from that pattern's leftmost match. |
| Extraction.CostEntryNeedsName | app.js:251-264 | Without a pattern match there is an entry only if some line contains the exact, case-sensitive name. |
| Extraction.LineScanShaped | app.js:221 | Every organisation-line match holds amount characters and digit counts. |
| Extraction.CompaniesDigits | app.js:226 | Every record's number, of either copy, is a string of decimal digits. |
| Patterns.LineAt | app.js:221 | The pattern `(\d+)\s+(.+?)\s+([\d\s,.]+)\s*kr\s*[,\-]+\s*(\d+)\s*%` at a position. The captures are a digit run, a non-empty name without line terminators, amount characters and a digit run. A match exists exactly when the name can end somewhere the rest of the pattern accepts. |
| Patterns.LineTail | app.js:221 | What follows the lazy name: white space, an amount of at least one character, `kr`, and the copy's percentage part. |
| Patterns.BrowserPercentTail | app.js:221 | `\s*[,\-]+\s*(\d+)\s*%` yields a non-empty digit capture and ends after its start. |
| Patterns.ScriptPercentTail | Code.js:71 | The Apps Script percentage part, `\s+(\d+)\s*%`, yields a non-empty digit capture. |
| Patterns.LineMatcherAdvances | app.js:223 | Every organisation-line match ends after it starts, so the global scan always moves on. |
| Patterns.AmountSplitClass | app.js:221 | Inside one run of `[\d\s,.]` the amount capture holds only that class. |
| Patterns.WrapAt | app.js:233 | The fallback pattern at a position: two non-empty name parts without digits and an amount of amount characters; a match exists exactly when the first name can end where the rest accepts. |
| Patterns.LeadEnd | Code.js:84 | `(?:%\|\btotal…)` matches exactly at a `%`, or at a word start holding the copy's literal. The literal is "totalbeløp" in the browser copy and the mis-encoded "totalbelÃ¸p" in the Apps Script copy. |
| Patterns.AmountTail | app.js:233 | `\s+kr\s+([\d\s,.]+)-\s\d+\s` yields an amount capture of amount characters. |
| Patterns.SecondEnd | app.js:233 | The lazy second name `(\D+?)` holds no digit and ends where the amount tail matches. |
| Patterns.WrapMatcherAdvances | app.js:235 | Every fallback match ends after it starts, so its global scan always moves on. |
| Patterns.CostAt | app.js:243 | The cost pattern matches only where the name stands, under the `i` flag with each space a `\s`, and its capture is non-empty amount characters. |
| Patterns.FindCostIsLeftmost | app.js:243-244 | `match` reports the leftmost start of the cost pattern, and reports none exactly when it matches nowhere. |
| Patterns.KrAmountAt | app.js:257 | `([\d\s,.]+)\s*kr` on a line captures amount characters that a `kr` follows. |
| Patterns.FindKrAmountIsLeftmost | app.js:257 | The line's amount match is the leftmost one, and there is none exactly when the pattern matches nowhere on the line. |
| Patterns.FindCostLine | app.js:255 | The line `find` returns is a line of the text holding the exact cost name. |
| Patterns.FindCostLineIsFirst | app.js:254-255 | No earlier line holds the name, and `undefined` means that no line does. |
| SumPatterns.DigitRunEnd | app.js:283 | `\d[\d\s,.]+` captures a digit followed by at least one amount character and takes the whole run. |
| SumPatterns.AfterLabel | app.js:283 | After the label, `\s*(kr\s*)?` then the digit-led capture of amount characters. |
| SumPatterns.TotalAt | app.js:283 | The total pattern matches only at a case-insensitive "total" and captures a digit-led run of at least two amount characters after the label. |
| SumPatterns.FindTotalIsLeftmost | app.js:283-284 | The total pattern's match is its leftmost one, and there is none exactly when it matches nowhere. |
| SumPatterns.TotalCapture | app.js:283-288 | The total capture starts with a digit, holds at least two characters and only amount characters. |
| SumPatterns.TotalCaptureNone | app.js:284-286 | There is no primary capture exactly when the primary pattern matches at no position. |
| SumPatterns.LineTotalAt | app.js:298 | `(\d[\d\s,.]+)\s*kr` on a line captures a digit-led run that `kr` follows. |
| SumPatterns.FindLineTotalIsLeftmost | app.js:298 | The line pattern's match is its leftmost one, and there is none exactly when it matches nowhere on the line. |
| SumPatterns.LineTotalCapture | app.js:298-300 | The line capture starts with a digit and holds only amount characters. |
| SumPatterns.LineTotalCaptureNone | app.js:298-299 | There is no line capture exactly when the line pattern matches nowhere on the line. |
| Totals.ExtractSum | app.js:279-309 | The function returns the primary total if the primary pattern matches; otherwise the total of the first line, from the end, that has one; otherwise null. |
| Totals.FromEnd | app.js:296-304 | The loop over the reversed lines returns at the last line with a match. |
| Totals.LastWithIsLast | app.js:296-304 | The line found is the last one with a match, and null means no line has one. |
| Totals.SumNone | app.js:286-308 | The total is null exactly when the primary pattern matches nowhere and no line matches `(\d[\d\s,.]+)\s*kr`. |
| Totals.SumNonNegative | app.js:288-302 | A non-null total is at least 0, because every capture starts with a digit. |
| Totals.SumFromLastLine | app.js:293-304 | Without a primary match, the total comes from the last line holding the line pattern. |
| Numbers.StripSeparators | app.js:226 | `replace(/[\s,.]/g, '')` leaves no white space, comma or period. |
| Text.NonWs | app.js:289 | `replace(/\s+/g, '')` leaves no white space and is no longer than its input. |
| Numbers.AmountCommaReplaceIsDead | app.js:226 | The comma-to-point replacement after the separator strip never changes anything. |
| Numbers.AmountNumberIsDigits | app.js:226 | On a `[\d\s,.]` capture, the amount clean-up gives exactly the capture's digits, in order. |
| Numbers.ParseFloatOfDigits | Code.js:169 | `parseFloat` of a digit string is its decimal value; of the empty string it is NaN. |
| Numbers.ParseFloatOfDigitLed | app.js:289 | `parseFloat` of a string starting with a digit is a number, and at least 0. |
| Numbers.SumValueOfDigitLed | app.js:289 | The total clean-up of a digit-led capture always yields a number, and at least 0. |
| Numbers.SumValueOfDigits | app.js:289 | A capture whose text without white space is a digit string reads as that string's value. |
| Numbers.SumValueOfGroups | app.js:289 | Digit groups separated by white space, as in `10 000`, read as one number: the first group times ten to the length of the second, plus the second. |
| Numbers.DigitsValueAppend | app.js:289 | The value of two digit strings written one after the other is the first scaled past the second, plus the second. |
| Numbers.SumValueOfDecimalComma | app.js:289 | A capture whose text without white space is `d1,d2` reads as `d1` plus `d2` over ten to the length of `d2`: the comma is the decimal point. |
| Numbers.SumValueOfDecimalPoint | app.js:289 | A capture whose text without white space is `d1.d2` followed by neither a digit nor an exponent reads as `d1.d2`; what follows is ignored. |
| Numbers.ParseFloatOfDecimal | app.js:289 | `parseFloat` of `d1.d2` followed by neither a digit nor an exponent is the whole part plus the fraction. |
| Numbers.NatToString | app.js:440 | The printed count is a digit string without a leading zero that reads back as the count. |
| Reconcile.AmountOfDigits | app.js:316 | A digit-string number adds its value. An empty one adds 0 in the browser copy and is NaN in the Apps Script copy. |
| Reconcile.FoldOfDigits | Code.js:167-172 | The `reduce` has a value exactly when no addend is NaN, and that value is the sum of the numbers' values. |
| Reconcile.TotalOfDigits | app.js:315-317 | The browser total is always the sum of the numbers' values. The Apps Script total is that sum when no number is empty, and NaN as soon as one is. |
| Reconcile.TotalExample | app.js:315-317 | Records numbered "1000", "2000" and "3000" add up to 6000. |
| Reconcile.CheckCases | app.js:361-371 | The verdict is "total missing" exactly when the total is null. With both values present it is success exactly when they lie within 0.01 of each other, bounds included. A NaN records' total never gives a mismatch. |
| Reconcile.BrowserCheck | app.js:361-371 | On digit-string numbers, the browser total exists. The verdict is "missing" exactly when the text's total is null, and success exactly when the text's total is within 0.01 of the numbers' sum. |
| Reconcile.BrowserOutcome | app.js:361-371 | For a whole text, the browser verdict is "missing" exactly when neither total pattern matches. Otherwise it is success exactly when the total read lies within 0.01 of the sum of the records' digit strings. |
| Recipient.ExtractRecipient | app.js:323-347 | The loop over the three patterns returns the clean-up of the first capture, or null. |
| Recipient.AppRecipientNone | app.js:331-346 | The browser result is null exactly when none of the three patterns matches anywhere in the text. |
| Recipient.AppRecipientFirstWins | app.js:331-343 | The first pattern with a capture decides the result; later patterns are not consulted. |
| Recipient.CleanupShape | app.js:335-341 | The result is a prefix of the trimmed, collapsed capture. It is all of it when that is at most 50 UTF-16 code units long. Otherwise it holds its first four words: it ends at the end or before a space, and it holds three spaces, or all of them when there are fewer. Its only white space is single spaces. |
| Recipient.CleanupKeepsText | app.js:335 | A result kept whole holds every character of the capture that is not white space, in order, and has no white space at either end. |
| Recipient.ScriptRecipientShape | Code.js:174-182 | The Apps Script result is null exactly when `til:\s+(.+?)\s\n` matches nowhere. Otherwise it is the capture trimmed, keeping all its text. |
| RecipientPatterns.LazyAt | app.js:326 | `til:\s+(.+?)` followed by the tail matches only at `til:` and captures at least one character. |
| RecipientPatterns.WordsAt | app.js:327 | The capitalised-words capture starts with a letter of `[A-ZÆØÅa-zæøå]` and holds only letters and white space. |
| RecipientPatterns.MoreWordsStops | app.js:327 | The greedy word repetition stops only where no further `\s+` word follows. |
| RecipientPatterns.AddressAt | app.js:328 | The address-bounded pattern matches at a case-insensitive `til:` and captures letters and white space. |
| RecipientPatterns.FindRuleIsLeftmost | app.js:332 | Each pattern's match is its leftmost one, and there is none exactly when it matches nowhere. |
| RecipientPatterns.Capture | app.js:332-333 | A capture of any recipient pattern is non-empty, so `match && match[1]` only tests that the pattern matched. |
| Search.ScanOrdered | app.js:223 | A global scan reports only matches, in increasing position, each one starting no earlier than the previous one ended. |
| Search.ScanComplete | app.js:223 | A global scan whose matches always end after they start misses no match: every position where the pattern matches lies inside a reported match. |
| Search.ScanRecords | app.js:223-230 | The `exec`-and-push loop appends one record per scanned match, in order. |
| Search.LeftmostIsFirst | app.js:244 | A non-global `match` finds its leftmost start; none means that no position matches. |
| Search.LazyEndIsShortest | app.js:221 | A lazy capture is the shortest that the rest of the pattern accepts. |
| Search.WsThenLazyIsFirst | app.js:221 | For `\s+(X+?)` and a tail, the choice is the first in backtracking order: the longest white-space run, then the shortest capture. |
| Search.GreedyThenLazyIsFirst | app.js:233 | For a greedy run then a lazy capture, the choice is the first in backtracking order. |
| Search.FirstWithIsFirst | app.js:331-344 | The first element with a value is found, and none means that no element has one. |
| Text.TrimSpec | app.js:225 | `trim` returns a slice of the string with no white space at either end. |
| Text.TrimCutsWs | app.js:225 | `trim` removes only white space, before and after the slice it keeps. |
| Text.TrimKeepsText | app.js:225 | `trim` keeps every character that is not white space, in order. |
| Text.Collapse | app.js:225 | `replace(/\s+/g, ' ')` leaves only single spaces as white space; it starts with the input's first character and ends with its last, a white-space one turned into a space. |
| Text.CollapseSnoc | app.js:225 | Read from the end, the collapse keeps each character that is not white space and turns each white-space run into one space. A white-space character adds a space unless the text before it already ends in white space. Together with the empty case this fixes the collapse of every string. |
| Text.CollapseKeepsText | app.js:225 | The collapse keeps every character that is not white space, in order. |
| Text.CollapseOfCollapsed | app.js:335 | The collapse changes nothing in a string whose only white space is single spaces. |
| Text.JoinTrimmedKeepsText | app.js:237 | Two trimmed parts joined by a space and trimmed again keep the text of both, in order. |
| Text.Split | app.js:254 | `split` gives at least one piece and no piece holds the separator. |
| Text.JoinSplit | app.js:338-340 | Joining the pieces of a split with the separator gives the string back. |
| Text.TakePieces | app.js:338-340 | `split(' ').slice(0, n).join(' ')` is the prefix of the string holding its first n pieces. It is all of the string or ends before a separator, and it holds n - 1 separators, or all of them when there are fewer. |
| Text.Utf16Length | app.js:337 | `length` counts one code unit per character of the Basic Multilingual Plane and two for any other, so it lies between the character count and twice that. |
| Text.SplitTerminated | app.js:439-441 | Lines each ended by a line feed split back into those lines. |
| Csv.ExportToCsv | app.js:434-448 | The file is the byte-order mark and header line, one line per record in list order, then the trailer. |
| Csv.CsvLines | app.js:437-445 | The file's lines are the header, the record lines in order, an empty line, the recipient line, the total line, and nothing after the last line feed. |
| Csv.RowFields | app.js:440 | A record line splits at its semicolons into the quoted name, the number, the gift count field and the percentage field. |
| Csv.CountFieldReads | app.js:440 | A count field is empty exactly when the count is missing or 0, and otherwise reads back as the count. |
| Sheet.Spreadsheet.WriteToGoogleSheet | Code.js:184-223 | The grid afterwards is `Written` of the old grid: the records placed, C1 and B8 set, and column B filled. |
| Sheet.Spreadsheet.PlaceCompanies | Code.js:190-197 | The `forEach` leaves column B as `PlaceKnown` says and returns the records with unknown names, in order. |
| Sheet.Spreadsheet.PlaceNewCompanies | Code.js:198-204 | The rows from 9 of columns D and E receive the new records' names and numbers. |
| Sheet.Spreadsheet.FillEmpty | Code.js:210-220 | The fill leaves the grid as `FillColumn` says: a value snapshot, then each empty cell with a non-blank A cell becomes "-". |
| Sheet.Spreadsheet.ResetButton | Code.js:8-15 | The grid afterwards is `Reset` of the old grid. |
| Sheet.Spreadsheet.GetLastRow | Code.js:187 | `getLastRow` is the last row with a non-empty cell. |
| Sheet.Spreadsheet.ColumnValues | Code.js:211 | `getValues` on a column range gives the range's cells in order. |
| Sheet.Spreadsheet.ClearContent | Code.js:12-13 | `clearContent` leaves the grid as `Clear` says. |
| Sheet.LastRowCells | Code.js:187 | Every cell below the last row is empty, and the last row has a non-empty cell. |
| Sheet.ExistingAt | Code.js:188 | `getRange('A1:A' + lastRow).getValues().flat()` holds column A, row by row. |
| Sheet.IndexOf | Code.js:191 | `indexOf` finds the first occurrence, and -1 (None) exactly when the name is absent. |
| Sheet.GetPut | Code.js:193 | A `setValue` changes its own cell and no other. |
| Sheet.NewCompaniesMembers | Code.js:190-197 | A record is collected as new exactly when its name is not in column A. |
| Sheet.NewCompaniesAppend | Code.js:190-197 | The new block of two record lists in a row is the first's block followed by the second's, so records keep their order and none is repeated or merged. |
| Sheet.NewCompaniesSingle | Code.js:190-197 | A single record is collected exactly when its name is not in column A. |
| Sheet.PlaceKnownCells | Code.js:190-197 | For a name first found at row r, B(r) holds the number of the last record with that name; every other cell is unchanged. |
| Sheet.PlaceNewCells | Code.js:198-204 | D(9+j) and E(9+j) hold the name and number of the j-th new record; every other cell is unchanged. |
| Sheet.FillColumnCells | Code.js:212-219 | The fill makes a cell of its range "-" exactly when the cell was empty and the A cell at row 9 + its index is not. It changes nothing else. |
| Sheet.ClearCells | Code.js:12-14 | `clearContent` empties its cells and no others. |
| Sheet.StagedCells | Code.js:188-207 | The cells before the fill: C1 holds the total, B8 the recipient, other B cells the known numbers, and the D and E rows the new records. Every other cell is unchanged. |
| Sheet.WrittenKeepsNames | Code.js:184-223 | Column A is never written. |
| Sheet.WrittenOutsideColumnB | Code.js:198-207 | Outside column B, only C1 and the new records' D/E rows change. |
| Sheet.WrittenColumnB | Code.js:206-220 | Each B cell after the write is what the merge and B8 left there, made "-" by the fill when empty with a non-blank A cell. This includes a B8 the fill reaches when the last row is above 9. |
| Sheet.WrittenListColumnB | Code.js:210-220 | From row 9 to the last row, B holds the known number, or "-" when that is empty and the row has a name. |
| Sheet.WrittenFillsColumnB | Code.js:209-220 | From row 9 to the last row, no row with a name in column A is left with an empty B cell. |
| Sheet.ResetCells | Code.js:8-15 | `resetButton` empties B from row 8 to the last row, D and E from row 9 to the last row, and C1. Every other cell is unchanged. |

## Left out

- **Not modelled at all:**
  - reading the PDF and OCR (`extractTextFromPDF`, `performOCR`, `convertPDFToText`);
  - the DOM, status and progress display;
  - `escapeHtml`, `formatNumber`, the Blob and download;
  - `console` logging;
  - `SpreadsheetApp.flush`.

  These are I/O or calls into libraries outside this model. The pipeline starts from the text string.
- **Floating point.** Values are exact reals. `parseFloat` rounding and floating-point sums are not modelled. NaN is `None`.
- **Numbers.ParseFloat:** reads decimal literals with an optional sign and exponent, but not the word "Infinity"; the captures it sees never hold one.
- **Printed totals are a parameter.** How JavaScript prints a number (`${sum}` in the CSV, `setValue(sum)` in C1) is the parameter `render`.
- **Counts are unbounded.** `parseInt` results are naturals without the 2^53 precision limit.
- **The regex engine.** There is no general engine. Each of the eleven patterns is a function giving its match at a position, written from its backtracking order, and the lemmas above relate each to its search.
- **Sheet value coercion.** Typed cell values (a number cell holding 0 is falsy in `!row[0]`) and the string-to-number coercion of `setValue` are not modelled. Cells are texts, and empty means "".
- **Empty sheet.** `WriteToGoogleSheet` and `ResetButton` require a last row of at least 1. On an empty sheet the source asks for the range `A1:A0`, which Apps Script rejects.
- **Reversed ranges.** A range such as `B9:B5` is taken as the rows between its ends, in either order, as A1 notation does.
- **Extraction.LineScanComplete:** states that every match position lies inside some reported match, not which match the scan chooses there. The choice is left to `LineScanOrdered` and the leftmost search.
- **Csv.CsvLines:** states the line layout only when no name, number, recipient or printed total holds a line feed. A fallback name can hold one, and then the file simply has more lines.
- **Csv.RowFields:** states the field split only for names and numbers without a semicolon, since nothing is escaped.
- **Recipient.CleanupKeepsText:** states that all text is kept only for results of at most 50 code units. A longer result keeps only its first four words (`Recipient.CleanupShape`).
- **Reconcile.BrowserCheck:** is stated for digit-string numbers, which is what extraction produces (`Extraction.CompaniesDigits`). Other numbers go through `parseFloat` as modelled.
- **Literal-text examples not proved.** The source's test texts "Totalsum 10 000 kr", "Total kr 5000" and "til: Test Company AS \nOther info" are not unfolded as literals, because slicing literal strings costs the solver too much. The general lemmas give their outcome:
  - A match exists (`Totals.SumNone`).
  - Its white-space-separated digit groups read as one number (`Numbers.SumValueOfGroups`, `Numbers.SumValueOfDigits`).
  - The first recipient pattern decides the result (`Recipient.AppRecipientFirstWins`, `Recipient.CleanupShape`).
- **Master list.** tests/app.spec.js:879-1048 exercises a master organisation list kept in `localStorage`. It has no code in `app.js` or `Code.js`, so nothing of it is modelled.
