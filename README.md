# Donut sales chart builder: header rename and row pipeline

This project models the data-cleaning core of `scripts/build_charts.py`. The
script downloads a published spreadsheet of donut sales as CSV. It then
normalises the column headers and cleans and enriches the rows before it
draws its charts. The model covers the two parts in between:

- **Header rename** (lines 20-29). Every header is lower-cased. A header
  containing `date` becomes `Date`. Otherwise, one containing `dozen` becomes
  `Dozens`. Otherwise, one containing `price` becomes `TotalPrice`. Every
  other header keeps its name. The dictionary is built by a loop, so the
  model has a method with a `for` loop (`ColumnRename.BuildRenameMap`). That
  method is proved equal to the recursive function `ColumnRename.RenameMap`,
  which the rest of the model uses.
- **Row pipeline** (lines 32-38). The date column is coerced and the rows
  whose date does not parse are dropped. The survivors are sorted by date.
  Then come the price per dozen, the price per donut and the running total
  of the price. A missing column is a `KeyError`, and the columns are looked
  up in the order the script evaluates them: `Date` first, then `TotalPrice`,
  then `Dozens`. Arithmetic on a text cell is a `TypeError`.

Modules, one per file:

- `Wrappers` (`wrappers.dfy`): `Option` and `Result`.
- `Text` (`text.dfy`): ASCII lower-casing and the substring test `sub in s`.
- `ColumnRename` (`rename.dfy`): classification of headers, the rename
  dictionary and the rename.
- `Rows` (`rows.dfy`): cells, coerced rows, dropping undated rows, the sort
  by date and their composition `Clean`.
- `Metrics` (`metrics.dfy`): sums, the cumulative sum, division, and the
  derived columns.
- `Pipeline` (`pipeline.dfy`): the table, the whole run `Run`, and the
  end-to-end theorems about it.

Parsing of a date string is a parameter, `parse: Cell -> Option<DateKey>`. A
parsed date is an integer key, and only its order matters.

## Model

| member | source | states |
|---|---|---|
| Text.Lower | scripts/build_charts.py:22 | Computes `col.lower()`: the result has the header's length and each character is that character lower-cased. |
| Text.ContainsIff | scripts/build_charts.py:23-27 | `Text.Contains`, the substring test `w in low`, holds exactly when `w` occurs at some position of `low`. |
| Text.LowerIdempotent | scripts/build_charts.py:22 | Lower-casing an already lower-cased header changes nothing. |
| ColumnRename.ClassifyByKeyWords | scripts/build_charts.py:22-28 | About `ColumnRename.Classify`, which computes the if/elif chain: a header is the date column exactly when it mentions "date", whatever else it mentions. It is the dozens column exactly when it mentions "dozen" but not "date". It is the price column exactly when it mentions "price" and neither of the others. It is unrecognised exactly when it mentions none of the three. |
| ColumnRename.ClassifyIgnoresCase | scripts/build_charts.py:22 | Two headers that agree letter by letter up to case are classified alike. |
| ColumnRename.ClassifyLowered | scripts/build_charts.py:22 | A header is classified like its lower-cased form. |
| ColumnRename.TargetNameClassifies | scripts/build_charts.py:24-28 | Each canonical name `Date`, `Dozens`, `TotalPrice` is recognised as its own column. |
| ColumnRename.RenameMapEntries | scripts/build_charts.py:20-28 | The keys of the rename dictionary `ColumnRename.RenameMap` are exactly the recognised headers, and each maps to the canonical name of its column. |
| ColumnRename.BuildRenameMap | scripts/build_charts.py:20-28 | The loop yields the rename dictionary. Its keys are exactly the recognised headers, each mapped to its canonical name. Unrecognised headers get no entry. |
| ColumnRename.NormalizedHeader | scripts/build_charts.py:29 | The rename `ColumnRename.NormalizeHeaders` (`ColumnRename.Rename` through the dictionary) keeps the number and order of the columns. Each header becomes the canonical name of its column, or stays as it is when unrecognised. |
| ColumnRename.NormalizedIsTarget | scripts/build_charts.py:20-29 | After the rename, a column carries a given canonical name exactly when its original header was recognised as that column. |
| ColumnRename.NormalizeIdempotent | scripts/build_charts.py:20-29 | Applying the rename step to renamed headers changes nothing. |
| Rows.CoerceDates | scripts/build_charts.py:32 | Coercion keeps the number and order of the rows, and pairs each raw row with the parse of its date cell. |
| Rows.CoerceDatesCounts | scripts/build_charts.py:32 | Date coercion pairs each raw row with the parse of its date cell. A coerced row occurs as often as its raw row exactly when it carries that row's parsed date, and never otherwise. |
| Rows.DropUndated | scripts/build_charts.py:33 | After dropping, every row has a date, and every row comes from the input. |
| Rows.DropUndatedCounts | scripts/build_charts.py:33 | A dated row survives as often as it occurred. An undated row never survives. |
| Rows.SortByDate | scripts/build_charts.py:33 | The sort yields the dates in non-decreasing order and is a permutation (multiset equality) of its input. |
| Rows.SortedPermutationsShareDates | scripts/build_charts.py:33 | Any two date-sorted orderings of the same rows have the same dates position by position. Only the order of rows that share a date is left open. |
| Rows.Clean | scripts/build_charts.py:32-33 | Coerce, drop and sort together give date-sorted rows. Each row carries one of the raw rows and that row's parsed date. |
| Rows.CleanCounts | scripts/build_charts.py:32-33 | A raw row whose date parses comes out exactly as often as it occurs in the input. Nothing else comes out. |
| Rows.CleanKeepsParsed | scripts/build_charts.py:32-33 | Every raw row whose date parses is among the cleaned rows, with its parsed date. |
| Metrics.CumSumIsPrefixSum | scripts/build_charts.py:38 | The cumulative sum `Metrics.CumSum` has one entry per amount. Entry `i` is the sum of the amounts at positions 0 to `i`. |
| Metrics.Divide | scripts/build_charts.py:36-37 | A quotient is defined exactly when the divisor is not zero. The defined quotient times the divisor is the dividend. |
| Metrics.Numbers | scripts/build_charts.py:36 | A column reads as numbers, one per row and equal to the cells, exactly when no row holds text in it. |
| Metrics.DeriveFails | scripts/build_charts.py:36-37 | `Metrics.Derive` computes the three derived columns; deriving fails only with a `TypeError`, and does so exactly when some row holds text in the dozens or the price column. |
| Metrics.DeriveKeepsRows | scripts/build_charts.py:36-38 | The derived table keeps the rows and their order, and reads the dozens and the price of each row from its cells. |
| Metrics.DeriveCumulativeTotal | scripts/build_charts.py:38 | The cumulative column has one entry per row. Each entry is the sum of the prices of that row and of every row before it. |
| Metrics.DerivePrices | scripts/build_charts.py:36-37 | The price per dozen is defined exactly when the dozens are not zero, and then times the dozens it gives the price. The price per donut is defined exactly when the price per dozen is, and twelve of them make the price per dozen. |
| Pipeline.IndexOf | scripts/build_charts.py:32 | A column lookup by name finds nothing exactly when no header has that name. Otherwise it finds the first header with the name. |
| Pipeline.ColumnOfFindsTarget | scripts/build_charts.py:20-32 | After the rename, looking up a canonical name fails exactly when no header was recognised as that column. A hit is a header recognised as that column, and with one header per column it is that header. |
| Pipeline.RenamedHasColumn | scripts/build_charts.py:20-29 | A canonical name is among the renamed headers exactly when some original header was recognised as that column. |
| Pipeline.ProcessMissingColumn | scripts/build_charts.py:32-36 | `Pipeline.Process` computes lines 32-38 on the renamed table; it stops with `KeyError("Date")` exactly when there is no `Date` column. Otherwise it stops with `KeyError("TotalPrice")` exactly when there is no `TotalPrice` column. Otherwise it stops with `KeyError("Dozens")` exactly when there is no `Dozens` column. |
| Pipeline.RunMissingColumn | scripts/build_charts.py:32-36 | `Pipeline.Run` computes lines 29-38 (the rename, then `Pipeline.Process`); it is also stated by RunDerives, RunTypeError, RunSortedPermutation, RunCumulativeTotal and RunPrices. A run reports the date column missing exactly when no header is recognised as the date. Otherwise it reports the price column missing exactly when no header is recognised as the price. Otherwise it reports the dozens column missing exactly when no header is recognised as the dozens. |
| Pipeline.RunDerives | scripts/build_charts.py:29-38 | With the three columns recognised at given positions, a run derives the metrics from the rows cleaned at the date column, read at the dozens and price columns. |
| Pipeline.RunOkHasColumns | scripts/build_charts.py:32-36 | A successful run had a header recognised as each of the three columns. |
| Pipeline.CleanedTextCell | scripts/build_charts.py:32-36 | Some cleaned row holds text in the dozens or the price column exactly when some raw row whose date parses does. |
| Pipeline.RunTypeError | scripts/build_charts.py:32-37 | With all three columns present, a run fails with `TypeError` exactly when some row whose date parses holds text in the dozens or the price column. |
| Pipeline.RunSortedPermutation | scripts/build_charts.py:32-33 | In a successful run the output dates never decrease. Each raw row whose date parses appears exactly as often as in the input, and nothing else appears. Each output row has the table's width, its raw row's parsed date, and the numbers in its dozens and price cells. |
| Pipeline.RunCumulativeTotal | scripts/build_charts.py:38 | In a successful run, the cumulative total of each row is the sum of the prices of that row and of all rows before it in date order. |
| Pipeline.RunPrices | scripts/build_charts.py:36-37 | In a successful run, every row has the price relations of `Metrics.DerivePrices`. |

## Left out

- Network download and status check (lines 12-14): network I/O. The model starts from the table the CSV reader produced.
- Creating the output folder (line 9) and the final message (line 62): filesystem and console side effects.
- CSV reading (line 17): a library call. A table is given as headers plus rows of cells, each cell text or a number.
- Parsing of date strings (line 32): library behaviour. It is the parameter `parse`, and a parsed date is an integer key that is only compared.
- The chart drawing and image files (lines 41-60): plotting output.
- Floating point (lines 36-38): amounts are exact reals. Dividing by zero, which gives inf or NaN in the script, is `None` in the model.
- Missing cells: the CSV reader turns the cells it reads as missing (empty, "NA", "N/A", "null", "nan" and its other default markers) into NaN. The model has no NaN cell. It leaves out NaN propagation in the ratios and `cumsum` skipping NaN. A dated row with such a marker in the dozens or price column, written as a `Str` cell, is a `TypeError` in the model, where the script gives a NaN ratio.
- Metrics.Numbers: the CSV reader infers one type per column, so a single text cell anywhere makes every cell of that column text. The model types each cell on its own. A `TypeError` therefore comes only from text in a row that survives the date filter.
- Text.ToLower: only the ASCII capitals A-Z are lower-cased. Python's `str.lower` also lower-cases non-ASCII letters.
- Pipeline.Run: requires a rectangular table and at most one header per recognised column. With two headers recognised as the same column, the renamed table has duplicate names and the lookups at lines 32-38 return tables, not columns. The script does not handle that case coherently.
- Pipeline.Run: after coercion, the script overwrites the date column with the parsed dates. The model keeps the raw cells of each row and carries the parsed date beside them (`Row.date`, `OutputRow.date`).
- Rows.SortByDate: the script's sort is not guaranteed stable. The model sorts by insertion but claims only sorted order and permutation. `Rows.SortedPermutationsShareDates` shows that the order of rows sharing a date is the only freedom left.
- The script matches substrings only. It has no exact-name preference among headers and no named missing-column error; a missing column is the plain `KeyError` of the lookup, which is what the model reports.
