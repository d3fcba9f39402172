# Energy savings calculator: a Dafny model of the monthly report pipeline

The calculator is a set of one-shot batch scripts. Each one reads a year of
monthly site telemetry, computes savings figures, writes one worksheet per
month and, for genset, frequency and harmonics, a yearly summary worksheet.
This project models the part with real logic, as pure Dafny functions over
sequences, maps and reals:

- **Cleaning** (genset and frequency), in `cleaning.dfy`. It has two passes.
  - `clean_month_csv_files` drops blank rows and residual "Total savings" rows, removes the `Conditions Met` column, and writes every month back with the last month's header.
  - `remove_short_time_entries` keeps the rows whose `Time Elapsed (minutes)` is at least 1.
- **Month figures** (genset and frequency), in `metrics.dfy`.
  - It finds the `Energy Saving (kWh)` column and sums its non-blank cells.
  - It counts outages: the non-blank cells minus one.
  - It prices both at the configured rates.
- **Worksheets and fixed-offset blocks**, in `sheets.dfy` and `blocks.dfy`.
  - A worksheet is a map from (row, column) to a stored cell, plus xlsxwriter's `dim_rowmax`.
  - A block is a list of label/value pairs written at `base + offset`.
  - The lemmas cover non-overlap, "rows above untouched" and the write/read round trip.
- **The genset and frequency workbooks**, in `report.dfy` and `summary.dfy`.
  - The copy of the CSV onto the month sheet, coercing numbers.
  - The figures block at `len(reader) + {2,4,6,8,10,11,12,20}` for genset and `+ {2,4,6,8,20}` for frequency.
  - The yearly step: month rows 1..12 and "Yearly Totals" on row 13.
  - The yearly reader is modelled twice: as written, and corrected (see Findings).
- **Harmonics**, in `harmonics.dfy`.
  - Loading and grouping by month.
  - Per-sample savings, gated by a strict `>` on either THD limit.
  - The month sheet: samples on rows 1..n, totals on rows n+1..n+3.
  - The openpyxl read-back (1-based, `max_row`).
  - The partial-update rule of `_update_yearly_totals`, and the yearly totals row.
- **Voltage**, in `voltage.dfy`: the per-month energy-deviation fold, the three costs, and the four label/value cells on rows 0-3.
- **Power factor**, in `power_factor.dfy`: the per-line reactive-power figures and their accumulation.

Python's behaviour is stated explicitly where it matters:

- **Exceptions.** `KeyError`, `ValueError`, `TypeError`, `IndexError` and `ZeroDivisionError` are the `Error` values of a `Result`.
- **Parsing.** `float(s)` and `int(s)` are the abstract partial functions of `Py.Parsers`. `math.sqrt` is a function parameter; the lemmas that need a true square root assume `IsSqrt`.
- **Absent inputs.** An absent file or yield entry is an `Option`.
- **Blank cells.** xlsxwriter stores nothing for an empty string, and `dim_rowmax` is `None` until the first cell is stored.
- **Reading back.** openpyxl reads 1-based: its `max_row` is `dim_rowmax + 1`, and row 0 raises `ValueError`.

## Model

| member | source | states |
|---|---|---|
| Cleaning.CleanRowsAsWritten | scripts/genset_fuel_savings.py:56-59 | every cleaned row is keyed by exactly the kept header fields (the frequency copy is scripts/frequency_savings.py:53-56) |
| Cleaning.CleanRowsAsWrittenIsFilter | scripts/genset_fuel_savings.py:55-59 | the row loop keeps, in input order, exactly the rows with some non-empty cell and no "Total savings" cell, and projects each onto the header without `Conditions Met` |
| Cleaning.CleanMonthAsWritten | scripts/genset_fuel_savings.py:54-60 | the cleaned month's header is the original header minus `Conditions Met`, order kept, and every row is keyed by that header |
| Cleaning.CleanMonthAsWrittenNotIdempotent | scripts/genset_fuel_savings.py:57-58 | a file whose only non-empty cell is a `Conditions Met` flag changes when it is cleaned a second time |
| Cleaning.FlagRowFirstPass | scripts/genset_fuel_savings.py:57-58 | the first pass keeps the flag-only row, which is all-blank once the flag column is removed |
| Cleaning.FlagRowSecondPass | scripts/genset_fuel_savings.py:57 | a second pass drops that all-blank row |
| Cleaning.CleanRowsFixed | scripts/genset_fuel_savings.py:57-58 | with the blank test applied after projection, every written row has a non-empty cell and no "Total savings" cell |
| Cleaning.CleanMonth | scripts/genset_fuel_savings.py:54-60 | the corrected month clean: header without `Conditions Met`, rows aligned to it, none blank and none a totals row |
| Cleaning.CleanRowsFixedKeepsClean | scripts/genset_fuel_savings.py:57-58 | rows that are already clean pass the corrected loop unchanged |
| Cleaning.CleanMonthIdempotent | scripts/genset_fuel_savings.py:54-60 | the corrected month clean applied to its own output is a no-op |
| Cleaning.CleanAgreesWithoutConditionsMet | scripts/genset_fuel_savings.py:57-58 | when the file has no `Conditions Met` column, the as-written and the corrected loops give the same rows |
| Cleaning.CleanRows | scripts/genset_fuel_savings.py:56-59 | either test yields rows keyed by exactly the kept header |
| Cleaning.Fill | scripts/genset_fuel_savings.py:67 | a written row reads back with every header field, its own value where it had one and "" elsewhere |
| Cleaning.WriteRows | scripts/genset_fuel_savings.py:65-67 | rows are written in order until the first one with a key outside the header, which raises ValueError; every written row is that row filled |
| Cleaning.LastPresent | scripts/genset_fuel_savings.py:47-60 | the header left in `fieldnames` is that of the last month whose file exists; None iff no month file exists |
| Cleaning.WriteBackMonth | scripts/genset_fuel_savings.py:62-67 | a present month is rewritten with the shared header; an absent month stays absent; a failure is a ValueError of a present month |
| Cleaning.WriteBackAll | scripts/genset_fuel_savings.py:62-67 | the write-back keeps the set of present months, and a crash is a ValueError at a month index inside the run |
| Cleaning.WriteBackShape | scripts/genset_fuel_savings.py:62-67 | every present month up to and including the failing one is rewritten with the shared header; every month after the failure is left as it was |
| Cleaning.WriteBackAllStep | scripts/genset_fuel_savings.py:62-67 | the write-back is the first month's rewrite followed by the rest, or stops at the first month's failure |
| Cleaning.CleanAll | scripts/genset_fuel_savings.py:44-67 | over the months: present and absent months are kept as such; any failure is a ValueError of the write-back |
| Cleaning.FillCleanRows | scripts/genset_fuel_savings.py:65-67 | a cleaned row fits the header and is written unchanged |
| Cleaning.WriteRowsKeeps | scripts/genset_fuel_savings.py:65-67 | rows keyed by exactly the header are all written, unchanged, without error |
| Cleaning.WriteBackUniform | scripts/genset_fuel_savings.py:62-67 | with one header for all months the write-back never fails and each month holds its own clean |
| Cleaning.CleanAllUniform | scripts/genset_fuel_savings.py:44-67 | with one header for all months the run never fails and each month equals cleaning that month alone |
| Cleaning.CleanAllForeignHeader | scripts/genset_fuel_savings.py:62-67 | two months whose headers differ: the last month's header lacks the first month's field, so the write-back raises ValueError at month 0 |
| Cleaning.CleanAllIdempotent | scripts/genset_fuel_savings.py:44-67 | with the corrected test and one header, running the whole cleaning pass on its own output changes nothing |
| Cleaning.ShortFilter | scripts/genset_fuel_savings.py:81-83 | succeeds iff every row has `Time Elapsed (minutes)` and `float` accepts it, and then keeps exactly the rows with value >= 1, in order; otherwise KeyError or ValueError (frequency: scripts/frequency_savings.py:78-80) |
| Cleaning.ShortFilterError | scripts/genset_fuel_savings.py:81-83 | the first row that fails decides the exception: KeyError when the column is missing, ValueError when the value does not parse |
| Cleaning.ShortFilterIdempotent | scripts/genset_fuel_savings.py:81-83 | filtering the kept rows again gives the same rows |
| Cleaning.ShortMonth | scripts/genset_fuel_savings.py:72-87 | an absent file is skipped; a present one keeps its header and the filtered rows; it fails iff some row fails the lookup or the parse |
| Cleaning.RemoveShortAll | scripts/genset_fuel_savings.py:70-88 | one result per month, and any crash is at a month index inside the run |
| Cleaning.RemoveShortCrashCause | scripts/genset_fuel_savings.py:70-88 | the run stops with the exception of the first month whose loop raises |
| Cleaning.RemoveShortNoCrash | scripts/genset_fuel_savings.py:70-88 | the run completes iff no present month's loop raises |
| Cleaning.RemoveShortMonth | scripts/genset_fuel_savings.py:70-88 | months before the crash are filtered and rewritten; the crashing month and later months are left as they were |
| Cleaning.RemoveShortIdempotent | scripts/genset_fuel_savings.py:70-88 | a second short-entry pass over the output of a complete one changes nothing |
| Metrics.FindColumn | scripts/genset_fuel_savings.py:139-143 | the index of the first header cell named `Energy Saving (kWh)`; None iff there is none |
| Metrics.KwhSum | scripts/genset_fuel_savings.py:147 | the generator's failure is IndexError (a short row) or ValueError (a cell `float` rejects) |
| Metrics.KwhSumIsSum | scripts/genset_fuel_savings.py:147 | the sum succeeds iff every data row reaches the column and every non-blank cell parses, and is then the sum of the parsed non-blank cells (frequency: scripts/frequency_savings.py:128) |
| Metrics.Outages | scripts/genset_fuel_savings.py:148 | at least -1, and -1 exactly when every cell of the column is blank |
| Metrics.MonthFigures | scripts/genset_fuel_savings.py:137-153 | an empty file raises IndexError; there are no figures iff the column is missing; otherwise the fuel and outage savings add up to the month total |
| Metrics.Price | scripts/genset_fuel_savings.py:149-153 | keeps kWh and outages, and the month total is fuel plus outage savings; yields are not part of it |
| Metrics.PriceRates | scripts/genset_fuel_savings.py:150-152 | fuel savings are kWh times `cost_fuel_plus_MTCE`, outage savings are outages times `cost_per_outage` (frequency: scripts/frequency_savings.py:130-134) |
| Metrics.MonthFiguresFromColumn | scripts/genset_fuel_savings.py:147-153 | the figures in terms of the energy column: kWh is the sum of its non-blank cells, and outages are their count minus one |
| Metrics.AllBlankMonth | scripts/genset_fuel_savings.py:147-152 | an all-blank energy column gives 0 kWh, -1 outages and a negative outage saving of one outage's cost |
| Metrics.WorkedMonth | scripts/genset_fuel_savings.py:147-153 | cells 10, blank, 20 at rates 0.10 and 50 give 30 kWh, 1 outage, fuel savings 3, outage savings 50 and a total of 53 |
| Metrics.WorkedKwh | scripts/genset_fuel_savings.py:147 | the worked column sums to 30, skipping the blank |
| Metrics.WorkedOutages | scripts/genset_fuel_savings.py:148 | the worked column has the two non-blank cells "10" and "20" |
| Sheets.WriteValid | scripts/genset_fuel_savings.py:128-130 | writing a cell keeps `dim_rowmax` at or past every stored row |
| Sheets.NothingPastDimRowMax | scripts/genset_fuel_savings.py:204-212 | a read at a row past `dim_rowmax`, or on a sheet with none, finds nothing |
| Sheets.WriteRowStores | scripts/harmonics_savings.py:100-106 | a row write that stores at least one cell moves `dim_rowmax` to that row if it was lower |
| Blocks.BlockValid | scripts/genset_fuel_savings.py:154-169 | writing a block keeps `dim_rowmax` at or past every stored row |
| Blocks.BlockFrame | scripts/genset_fuel_savings.py:154-169 | the block changes only columns 0 and 1 of its own rows |
| Blocks.BlockLeavesRowsAbove | scripts/genset_fuel_savings.py:154-169 | every cell above the block's first row, data included, is unchanged |
| Blocks.BlockCells | scripts/genset_fuel_savings.py:154-169 | entry k's label is in column 0 of row `base + offset[k]` and its value in column 1, whatever the offsets that follow |
| Blocks.BlockCellsOnFreshRows | scripts/genset_fuel_savings.py:154-169 | on rows nothing was stored on before, each value reads back exactly as it was stored |
| Blocks.BlockDimRowMax | scripts/genset_fuel_savings.py:168-169 | after a block written past all data, `dim_rowmax` is the row of its last entry |
| Blocks.BlockRoundTrip | scripts/genset_fuel_savings.py:154-169 | reading a block back at the base it was written at returns the stored values, entry by entry |
| Blocks.ReadPastSheet | scripts/genset_fuel_savings.py:204-212 | a read whose base lies past `dim_rowmax` finds nothing in any entry |
| Report.LayoutsWellFormed | scripts/genset_fuel_savings.py:154-169 | both blocks have pairwise increasing offsets from 2 to 20 and one non-blank label per entry (frequency: scripts/frequency_savings.py:135-144) |
| Report.NumericEntriesHoldFigures | scripts/genset_fuel_savings.py:154-169 | five entries of the block hold kWh, outages, fuel savings, outage savings and month total as numbers |
| Report.Coerce | scripts/genset_fuel_savings.py:126-130 | a cell with '.' goes through `float` and one without through `int`; where the parse fails the cell is text equal to the input |
| Report.CoerceRow | scripts/genset_fuel_savings.py:125-130 | each cell of a row is coerced at its own column |
| Report.CopyReader | scripts/genset_fuel_savings.py:122-130 | copying a file onto an empty sheet stores nothing at or past the file's length |
| Report.CopyCells | scripts/genset_fuel_savings.py:122-130 | each position holds the file's coerced cell when it is stored and the earlier content otherwise |
| Report.CopyValid | scripts/genset_fuel_savings.py:122-130 | the copy keeps `dim_rowmax` consistent |
| Report.MonthSheet | scripts/genset_fuel_savings.py:116-172 | an absent file leaves an empty sheet; a present one fails iff its figures raise or, when the block is written, some data row is shorter than the header, which the column-width loop turns into IndexError |
| Report.MonthSheetIsSheet | scripts/genset_fuel_savings.py:132 | a month whose figures compute gets the copy followed by the block of those figures |
| Report.SheetKeepsData | scripts/genset_fuel_savings.py:154-169 | every file row of the sheet holds what the copy stored; the block overwrites no data |
| Report.MonthSheetWithoutColumn | scripts/genset_fuel_savings.py:144-146 | without the energy column the sheet is the bare copy, with nothing at or below the file's length |
| Report.MonthSheetKeepsData | scripts/genset_fuel_savings.py:122-169 | every file row of a finished month sheet holds exactly what the copy loop stored |
| Report.SheetDimRowMax | scripts/genset_fuel_savings.py:168-169 | with figures, `dim_rowmax` is the file length plus 20 |
| Report.ReadAsWritten | scripts/genset_fuel_savings.py:204-212 | the reader as written raises TypeError iff `dim_rowmax` is None, and otherwise reads one cell per entry |
| Report.AsWrittenReadsNothing | scripts/genset_fuel_savings.py:204-212 | the base `dim_rowmax + 1` lies past every stored cell, so every entry read is None |
| Report.AsWrittenBase | scripts/genset_fuel_savings.py:154-204 | with a block written, the reader's base is the writer's base `len(reader)` plus 21 |
| Report.AddCell | scripts/genset_fuel_savings.py:224 | `total += value` succeeds iff the value is a number and then adds it; otherwise TypeError |
| Report.AddCells | scripts/genset_fuel_savings.py:224-231 | a month's additions fail with TypeError, at once if the first cell is None |
| Report.YearAsWrittenFails | scripts/genset_fuel_savings.py:199-231 | the fold as written raises TypeError at the first month sheet, whatever it holds |
| Report.AbsentMonthAsWritten | scripts/genset_fuel_savings.py:117-121 | an absent month leaves an empty sheet, which the `worksheet is None` test at lines 201-202 does not skip; reading it at `dim_rowmax + 1` raises TypeError, and so does the yearly step |
| Report.MonthSheets | scripts/genset_fuel_savings.py:116-132 | the twelve sheets in calendar order, each the sheet of its own month |
| Report.RunAsWrittenNeverCompletes | scripts/genset_fuel_savings.py:116-133 | the run as written never completes; once the sheets are built it fails with TypeError (frequency: scripts/frequency_savings.py:168-191) |
| Report.FixedReadsFigures | scripts/genset_fuel_savings.py:154-169 | the corrected reader returns each numeric figure that was written for the month |
| Report.BlockRead | scripts/genset_fuel_savings.py:154-169 | a block written on rows past the copied data reads back its five figures |
| Report.ReadsCell | scripts/genset_fuel_savings.py:205-212 | entry e of the corrected read is the number in the cell at its row |
| Report.AddMonth | scripts/genset_fuel_savings.py:214-222 | a present month names itself in column 0 of row m + 1; every other row's label is unchanged |
| Report.YearSheetRows | scripts/genset_fuel_savings.py:199-222 | in the corrected summary, row m + 1 names month m exactly when its file exists, and is empty otherwise, which is the skip the `worksheet is None` test intends |
| Report.YearSheetHeader | scripts/genset_fuel_savings.py:180-188 | the header "Month" stays on row 0 through the year |
| Report.YearSheetEmptyBelow | scripts/genset_fuel_savings.py:199-222 | nothing is written below the last month processed so far |
| Report.SummaryFixed | scripts/genset_fuel_savings.py:233-241 | row 13 holds "Yearly Totals" and, in column e + 1, running total e |
| Report.BuiltFigured | scripts/genset_fuel_savings.py:116-132 | every present month of a completed build had computable figures |
| Report.YearTotalsStep | scripts/genset_fuel_savings.py:224-231 | a present month adds exactly its own figure to each numeric total; an absent month adds nothing |
| Report.YearTotalsSums | scripts/genset_fuel_savings.py:199-241 | each numeric yearly total is the sum of that figure over the months whose file exists; missing months contribute nothing |
| Report.RunFixed | scripts/genset_fuel_savings.py:116-134 | the corrected run fails iff building a month sheet fails |
| Report.RunFixedTotals | scripts/genset_fuel_savings.py:233-241 | in the corrected run, each numeric cell of the totals row is the sum over the present months of the figure the month computed (frequency: scripts/frequency_savings.py:193-198) |
| Py.Field | scripts/harmonics_savings.py:45 | `row[key]` succeeds iff the key is present, and otherwise raises KeyError of that key |
| Py.FloatField | scripts/harmonics_savings.py:49-51 | `float(row[key])` succeeds iff the key is present and `float` accepts the value; KeyError or ValueError otherwise (the same lookup serves scripts/voltage_savings.py:53-55) |
| Harmonics.ParseSample | scripts/harmonics_savings.py:47-52 | a row becomes a sample iff its timestamp and three numbers are readable, and the sample carries exactly those values |
| Harmonics.Group | scripts/harmonics_savings.py:43-52 | a successful load has exactly the twelve months as keys |
| Harmonics.LoadHarmonicData | scripts/harmonics_savings.py:34-54 | a missing file gives an empty dictionary; otherwise the grouping of the file's rows |
| Harmonics.GroupOk | scripts/harmonics_savings.py:44-52 | the load succeeds iff every row has a Month, and every row of a calendar month parses |
| Harmonics.GroupByMonth | scripts/harmonics_savings.py:43-52 | a month's list is its own rows, in input order, each parsed; rows of other month names are dropped |
| Harmonics.SavingsOf | scripts/harmonics_savings.py:116-129 | a sample with neither THD strictly over its limit saves nothing |
| Harmonics.SavingsFormulas | scripts/harmonics_savings.py:124-127 | for a non-compliant sample: energy is kVA times 5/60, losses are loss factor times energy times THD_I/100, cost is losses times price |
| Harmonics.SavingsClosedForm | scripts/harmonics_savings.py:124-127 | cost times 1200 equals loss factor times price times kVA times THD_I, even when only THD_V tripped |
| Harmonics.SavingsAtLimits | scripts/harmonics_savings.py:124 | the gate is strict: a sample exactly at both limits saves nothing, and one just over counts kVA/12 |
| Harmonics.SavingsNonNegative | scripts/harmonics_savings.py:124-127 | with non-negative inputs every saving is non-negative |
| Harmonics.MonthTotals | scripts/harmonics_savings.py:90-98 | the `+=` loop, modelled as a fold over the samples in order, leaves each of the three totals equal to the sum of that savings column |
| Harmonics.HeaderSheet | scripts/harmonics_savings.py:86-88 | the seven headers sit on row 0 and nothing else is stored |
| Harmonics.WriteSamples | scripts/harmonics_savings.py:94-106 | only rows 1..n change |
| Harmonics.SampleCells | scripts/harmonics_savings.py:100-106 | row i + 1 holds sample i's seven cells |
| Harmonics.SamplesDimRowMax | scripts/harmonics_savings.py:94-106 | after the samples, `dim_rowmax` is n |
| Harmonics.WriteTotalsBlock | scripts/harmonics_savings.py:108-113 | label e on row n + 1 + e in column 0 and total e in column 1; nothing else changes |
| Harmonics.MonthSheet | scripts/harmonics_savings.py:76-113 | a month without samples gets an empty sheet with no totals |
| Harmonics.MonthSheetTotals | scripts/harmonics_savings.py:108-113 | rows n+1..n+3 hold the three labels and the sums of the saving columns |
| Harmonics.MonthSheetSaving | scripts/harmonics_savings.py:104-106 | column 4 + e of row i + 1 holds saving e of sample i |
| Harmonics.MonthSheetColumns | scripts/harmonics_savings.py:94-113 | each total on the sheet is the sum of the savings written above it in the same column |
| Harmonics.MonthSheetSample | scripts/harmonics_savings.py:100-103 | row i + 1 carries sample i's timestamp (when not blank), THD_I, THD_V and kVA |
| Harmonics.MonthSheetMaxRow | scripts/harmonics_savings.py:108-113 | for openpyxl the sheet ends on the last totals row: `max_row` is n + 4 |
| Harmonics.ReadMonth | scripts/harmonics_savings.py:182-188 | three column-2 cells (1-based) from the top row; ValueError iff the top row is below 1 |
| Harmonics.ReadEmptyMonth | scripts/harmonics_savings.py:185 | the empty sheet of a month without samples makes either reader raise ValueError |
| Harmonics.ReadFixedTotals | scripts/harmonics_savings.py:185-187 | the corrected reader, starting at `max_row - 2`, returns exactly the three month totals |
| Harmonics.ReadAsWrittenShifted | scripts/harmonics_savings.py:185-187 | as written the reader is one row too high: it gets the last sample's THD_I and the first two totals |
| Harmonics.ReadThree | scripts/harmonics_savings.py:185-187 | three numbers in column 2 from the top row are read as they are |
| Harmonics.FloatOf | scripts/harmonics_savings.py:200-202 | None counts 0, a number is itself, a string is what `float` makes of it |
| Harmonics.Accepted | scripts/harmonics_savings.py:200-202 | how many leading cells `float` accepts before the first it rejects |
| Harmonics.UpdateTotals | scripts/harmonics_savings.py:197-208 | the fields are added in order; a ValueError leaves the later fields of that month unadded |
| Harmonics.UpdateWithNumbers | scripts/harmonics_savings.py:200-202 | numbers are added field by field |
| Harmonics.AcceptedNumbers | scripts/harmonics_savings.py:200-202 | `float` accepts every number, so all three fields are added |
| Harmonics.MonthCells | scripts/harmonics_savings.py:168-180 | a month is read iff the saved workbook exists, has the month's sheet, and the read does not raise |
| Harmonics.YearSummary | scripts/harmonics_savings.py:210-216 | row 13 holds "Yearly Totals" and the three running totals |
| Harmonics.YearEmptyBelow | scripts/harmonics_savings.py:156-157 | nothing is written below the months processed so far |
| Harmonics.YearRows | scripts/harmonics_savings.py:190-195 | month m has its summary row exactly when it was read |
| Harmonics.TotalsStep | scripts/harmonics_savings.py:197-202 | one more month adds what it contributes to each total |
| Harmonics.ReadColumnStep | scripts/harmonics_savings.py:168-173 | one more month adds its entry to the column of values read iff it was read |
| Harmonics.YearTotals | scripts/harmonics_savings.py:148-159 | when every cell read parses, each total is the sum of that field over the months read, in month order, None counting 0 |
| Harmonics.PartialUpdate | scripts/harmonics_savings.py:199-204 | an unparsable string stops that month's update at its own field, and the fields before it are still added |
| Harmonics.RunHarmonics | scripts/harmonics_savings.py:56-74 | the run succeeds iff loading does, and then builds each month's sheet from the loaded samples |
| Harmonics.ReadSavedMonth | scripts/harmonics_savings.py:168-171 | over a workbook saved from given samples, a month is read iff it has samples, and the reader then finds its values |
| Harmonics.YearOverSaved | scripts/harmonics_savings.py:148-159 | the totals over such a workbook are, per field, the sums of what the reader finds on the months with samples |
| Harmonics.SavedMonthAdds | scripts/harmonics_savings.py:168-173 | a month of a saved workbook adds what the reader finds on it |
| Harmonics.SecondRunFixed | scripts/harmonics_savings.py:165-173 | with the corrected reader, a second run over the first run's workbook puts in total e the sum, over the months with samples, of that month's total e |
| Harmonics.SecondRunAsWritten | scripts/harmonics_savings.py:165-173 | with the reader as written, total e is instead the sum of the shifted cells: each month's last THD_I, then the first two totals |
| Harmonics.ReadersDisagree | scripts/harmonics_savings.py:185-187 | for one non-compliant sample the reader as written returns THD_I 10 where the total energy is 1 |
| Voltage.Reading | scripts/voltage_savings.py:53-55 | a row is read iff all three fields parse; the load voltage is parsed and then dropped |
| Voltage.Deviation | scripts/voltage_savings.py:58 | raises ZeroDivisionError iff nominal is 0; otherwise deviation times nominal is (nominal - grid) times load power |
| Voltage.RowDeviation | scripts/voltage_savings.py:52-58 | a row gives a deviation iff it is read and nominal is not 0 |
| Voltage.TotalDeviationOk | scripts/voltage_savings.py:51-59 | the month fold completes iff every row is read and, when there are rows, nominal is not 0 |
| Voltage.TotalDeviationIsSum | scripts/voltage_savings.py:51-59 | the total is the sum of every row's deviation, with no tolerance gate |
| Voltage.ZeroNominal | scripts/voltage_savings.py:56-58 | a zero nominal voltage makes any month with a readable first row raise ZeroDivisionError |
| Voltage.ZeroNominalPrefix | scripts/voltage_savings.py:56-58 | the same holds for every non-empty prefix of the rows |
| Voltage.AtNominal | scripts/voltage_savings.py:58 | a row at nominal voltage contributes exactly 0 |
| Voltage.LoadVoltageUnused | scripts/voltage_savings.py:55 | changing a row's load voltage to another parsable value does not change its deviation |
| Voltage.TotalDeviationAppend | scripts/voltage_savings.py:51-59 | the fold over two runs of rows is the sum of the two folds |
| Voltage.FiguresOf | scripts/voltage_savings.py:61-66 | the deviation is the total; the grid cost is total × `cost_per_kWh`; the battery cost is total × `cost_fuel_plus_MTCE`; savings are grid cost minus battery cost, which is total × (`cost_per_kWh` - `cost_fuel_plus_MTCE`) |
| Voltage.VoltageLayoutWellFormed | scripts/voltage_savings.py:68-75 | the four result rows 0-3 are distinct, and their labels are non-blank |
| Voltage.MonthSheet | scripts/voltage_savings.py:39-75 | a missing file leaves the month's sheet empty; a present one succeeds iff the fold does |
| Voltage.MonthSheetCells | scripts/voltage_savings.py:68-75 | row k holds label k in column 0 and figure k in column 1 |
| Voltage.MonthSheetNothingElse | scripts/voltage_savings.py:68-75 | nothing is stored outside rows 0-3, columns 0-1 |
| Voltage.MonthSheetRoundTrip | scripts/voltage_savings.py:68-75 | reading the four result cells back gives the four figures |
| Voltage.Run | scripts/voltage_savings.py:39-77 | one sheet per month, each that month's own sheet |
| Voltage.RunOk | scripts/voltage_savings.py:39-59 | the run completes iff no present month's fold raises; missing months are skipped |
| PowerFactor.RealPower | scripts/power_factor_savings.py:45-46 | a line is read iff it has exactly two fields and `float` accepts the second; otherwise ValueError |
| PowerFactor.Figures | scripts/power_factor_savings.py:45-53 | a line gives figures iff it is read, the target factor is not 0 and S² - P² is not negative; reactive-after is reactive-before minus the reduction |
| PowerFactor.LineFigures | scripts/power_factor_savings.py:47-53 | apparent power times the target factor is the real power; the cost difference is `cost_reactive` times the reduction; the energy saving is loss factor times (2·before·reduction - reduction²) |
| PowerFactor.PowerTriangle | scripts/power_factor_savings.py:47-48 | with a true square root, reactive-before is non-negative and Q² + P² = S² |
| PowerFactor.SqrtDomain | scripts/power_factor_savings.py:47-48 | S² - P² is non-negative iff the power is 0 or the target factor is at most 1 in size |
| PowerFactor.AccumulateOk | scripts/power_factor_savings.py:44-57 | the loop completes iff every line gives its figures |
| PowerFactor.TimesIsProduct | scripts/power_factor_savings.py:55-59 | adding a constant n times is multiplying it by n |
| PowerFactor.CostDifference | scripts/power_factor_savings.py:51-59 | the accumulated cost difference is `cost_reactive` times the reduction, added once per line, whatever the data |
| PowerFactor.LineCost | scripts/power_factor_savings.py:51-56 | each line adds exactly `cost_reactive` times the reduction to the cost difference |
| PowerFactor.EnergyIsSum | scripts/power_factor_savings.py:53-57 | the energy total is the sum of the lines' energy savings |
| PowerFactor.Calculate | scripts/power_factor_savings.py:31-60 | a missing file computes nothing; otherwise total savings are cost savings plus energy savings times `energy_cost` |
| PowerFactor.CalculateFigures | scripts/power_factor_savings.py:38-60 | the run succeeds iff every line gives figures; cost savings are the reduction's cost once per line, and energy savings are the per-line sum |

## Left out

- **Configuration and filesystem.** Configuration loading, `sys.exit`, the year-folder check, `Path.exists` and `mkdir` are not modelled. Whether a month file exists is an `Option` input.
- **File formats.** CSV reading and writing and the xlsx file format are not modelled. A worksheet is a cell map, `dim_rowmax` or `max_row` is a function of it, and a file is a sequence of rows.
- **Row shapes.** A DictReader row is a map of its fields. Short rows (None values) are not modelled, nor are extra fields beyond the header (`restkey`).
- **Headerless files.** A cleaned file is a `Cleaning.Table`, which always has a header. A present but empty file gives DictReader `fieldnames` of None, and the list comprehension over it raises TypeError (scripts/genset_fuel_savings.py:55, scripts/frequency_savings.py:52). That error is not modelled.
- **Workbook lifecycle.** Sheet names, `add_worksheet` and `get_worksheet_by_name` are represented by position or by month name. Workbook `close` is not modelled.
- **Reading a written sheet.** The genset and frequency yearly steps read stored cells with `get_cell_value` (scripts/genset_fuel_savings.py:205-212, scripts/frequency_savings.py:174-181). It is modelled as a lookup in the cell map. If the xlsxwriter in use has no such method, the first month raises AttributeError at that line instead of TypeError at the `+=`. The run still never completes.
- **Sheet-name length.** xlsxwriter's `add_worksheet` raises on names longer than 31 characters, and names are not modelled. Scripts that exceed the limit:
  - harmonics: the summary name `{site}_{year}_Harmonic_Savings_Summary` (scripts/harmonics_savings.py:66) exceeds it for any site name of two or more characters;
  - voltage: the month names (scripts/voltage_savings.py:40) exceed it for longer site names;
  - genset and frequency: the month and summary names exceed it for longer site names.
- Harmonics.RunHarmonics: "succeeds iff loading does" holds only when every sheet name fits xlsxwriter's 31-character limit (see "Sheet-name length").
- Voltage.RunOk: "completes iff no present month's fold raises" holds only when every month's sheet name fits the 31-character limit.
- Report.RunFixed: "fails iff building a month sheet fails" holds only when every sheet name fits the 31-character limit.
- **The workbook harmonics reads back.** The harmonics summary reads the workbook saved on disk by an earlier run, because xlsxwriter writes only on close. That workbook is an input to the model.
- **Column widths** (scripts/genset_fuel_savings.py:170-172 and scripts/frequency_savings.py:145-147). The widths themselves are left out because they are cosmetic. The IndexError that the width loop raises on a data row shorter than the header is modelled (`Report.MonthSheet`).
- **Logging** is left out, including the power-factor result, which is only logged (scripts/power_factor_savings.py:62-63). `Calculate` returns it instead.
- **Floating point.** Floats are modelled as reals, so IEEE rounding is not modelled.
- **Parsing.** The literal grammar of `float` and `int` is not modelled. They are the abstract partial functions of `Py.Parsers`.
- **Square root.** `math.sqrt` is a parameter. Its non-negative-root property is the premise `IsSqrt`, used only by the lemmas that need it.
- **Yield files.** Yield-file loading (`load_yield_data`) is left out. A month's three yields are `Option<string>` inputs, and "N/A" is written when one is missing.
- **Exception handler** (scripts/harmonics_savings.py:168-180). Any exception while a month is read skips that month. The model distinguishes three causes: a missing workbook, a missing sheet, and a failed read. It does not model other exceptions from the openpyxl library.
- **Genset and frequency are one model.** `Report.Kind` selects between them. They share the same cleaning, metrics and yearly routines, with different block offsets and labels, so every citation of the genset file applies to the frequency lines named in its row.
- Report.CellNumber: a text cell counts as what `float` makes of it, or 0. The code as written would raise on `0 + "N/A"` for the yield entries, and the correction has to choose something. Only the five numeric entries are covered by `Report.YearTotalsSums`.
- PowerFactor.CostDifference: states the total as `Times(n, cost_reactive × reduction)`. `PowerFactor.TimesIsProduct` turns that into the product n × `cost_reactive` × reduction.
- Metrics.Price: its contract fixes kWh, outages and the total as a sum. The two rate products are stated in the separate lemma `Metrics.PriceRates`.

### Behaviour one might expect that the scripts lack

The model follows the code. These are facts about the code that a reader might not expect:

- **Parse failures.** A row whose duration does not parse raises ValueError; it is not dropped (`Cleaning.ShortFilter`).
- **No spacing filter.** Neither script filters entries by a minimum spacing.
- **Energy sum.** Every non-blank energy cell is summed, negative ones included (`Metrics.KwhSumIsSum`).
- **Frequency, voltage and power-factor formulas.**
  - The frequency and voltage costs have no tolerance gate (`Voltage.TotalDeviationIsSum`).
  - There is no per-row power-factor penalty against a target. The scripts compute the reactive-power figures modelled in `PowerFactor`.
- **Missing energy column.** A month without the energy column gets no block at all, not a zeroed one (`Report.MonthSheetWithoutColumn`).
- **Absent months.** Every month gets a sheet before its file is checked, so an absent month's sheet is empty. The yearly step's `worksheet is None` test never fires, and `dim_rowmax + 1` raises TypeError on that sheet (`Report.AbsentMonthAsWritten`). The corrected model skips the month (`Report.YearSheetRows`); see Findings.
- **Read/write agreement.** The yearly step does not read the block where it was written; see Findings.

## Findings

| source | as written | input that shows it | evidently intended | confidence | as-written member | corrected member |
|---|---|---|---|---|---|---|
| scripts/genset_fuel_savings.py:204 | reads the month block at base `dim_rowmax + 1`. With the block written, that is 21 rows past the writer's base `len(reader)`, so every cell read is empty and `0 + None` raises TypeError. On an empty sheet, `None + 1` raises | any month sheet, e.g. a file with a header and one data row | read the block at the writer's base `len(reader)`, and skip months whose file is absent (next row but one) | not executed | Report.YearAsWrittenFails | Report.RunFixedTotals |
| scripts/frequency_savings.py:173 | the same base `dim_rowmax + 1`, so the yearly step raises TypeError at the first month sheet | any month sheet | read at `len(reader)`, and skip months whose file is absent (next row) | not executed | Report.RunAsWrittenNeverCompletes | Report.YearTotalsSums |
| scripts/genset_fuel_savings.py:201-202 | skips a month only when its sheet is missing, but every month's sheet is added at line 117 before the file check. An absent month leaves an empty sheet, and `dim_rowmax + 1` at line 204 raises TypeError (frequency: lines 98 and 169-173) | a year whose January file is missing | skip the months whose file is absent | not executed | Report.AbsentMonthAsWritten | Report.YearSheetRows |
| scripts/harmonics_savings.py:185-187 | reads 1-based rows `max_row - 3 .. max_row - 1`. Since `max_row` is n + 4, those are 0-based rows n .. n+2: the last sample's THD_I, then the first two totals | one sample, THD_I 10 over a limit of 5, 12 kVA: energy total 1 is read as 10 | read rows `max_row - 2 .. max_row` | not executed | Harmonics.ReadersDisagree | Harmonics.SecondRunFixed |
| scripts/genset_fuel_savings.py:57-58 | tests blankness on the row before `Conditions Met` is removed. A row whose only value is that flag survives as an all-blank row, so cleaning twice differs from cleaning once | header `Time Elapsed (minutes)`, `Conditions Met`; one row `""`, `"True"` | test the projected row, so that the pass is idempotent | not executed | Cleaning.CleanMonthAsWrittenNotIdempotent | Cleaning.CleanMonthIdempotent |
