# Sales-data preprocessing: a verified model

This project models the cleaning step of a small retail-data pipeline,
`preprocess/preprocess.py`. It covers two parts.

- **The date normaliser** (`convert_date_format`). It tries a date string
  against `%Y-%m-%d`, `%d-%m-%Y` and `%d/%m/%Y`, in that order. The first
  pattern that parses gives the result, written as `YYYY-MM-DD`. When none
  parses, it raises `Unable to parse date: <input>`.
- **The table transform** of `preprocess`. In order, it:
  1. drops every row that has a missing value in any column;
  2. keeps only the rows with `quantity > 0`;
  3. turns `postal_code` into the decimal string of its integer value;
  4. normalises `order_date`, then `ship_date`.

  The first date that does not parse stops the whole run. The table is
  written only if every step succeeds.

Files:

- `wrappers.dfy`: the `Option` and `Result` datatypes.
- `digits.dfy`: digit strings, zero-padded fields, and Python's `str(int)` and `int(str)` on integers.
- `date_normalizer.dfy`:
  - the calendar;
  - the three patterns, with a strict parser and a renderer for each;
  - `NormalizeDate`, the normaliser as a function;
  - `ConvertDateFormat`, the source's loop over the patterns, proved equal to it.
- `row_pipeline.dfy`:
  - the row datatypes;
  - each stage twice, as a function over the sequence of rows and as a method with a loop proved equal to it;
  - `Preprocess`, which runs the stages in order;
  - the properties of the whole transform.
- `scenarios.dfy`: worked examples. Each date form is normalised. Invalid and two-digit-year dates are rejected. A complete row comes out cleaned. Dropped rows are never parsed. A bad date in a kept row stops the run.

The pattern grammar is written out in the model. The parsing library is not
part of it. Each pattern has:

- exactly ten characters;
- a four-digit year;
- a two-digit month and a two-digit day;
- the pattern's separator between the fields.

The fields must name a real day of the proleptic Gregorian calendar, with a
year from 1 to 9999.

A cleaned `postal_code` is not always digits only: the code writes it with
`str(int(...))`, which puts a `-` in front of a negative value.
`IntToDecimal` keeps that sign, and `IntToDecimalRoundTrip` proves that the
result is all digits exactly when the value is not negative.

## Model

| member | source | states |
|---|---|---|
| DateNormalizer.ConvertDateFormat | preprocess/preprocess.py:6-13 | The loop that tries the patterns in order and returns on the first success gives exactly `NormalizeDate(s)`. |
| DateNormalizer.FirstMatch | preprocess/preprocess.py:8-12 | The result is None exactly when every pattern fails. When it is Some, it is the parse of some pattern, and every earlier pattern failed. |
| DateNormalizer.NormalizeDateFirstMatchWins | preprocess/preprocess.py:7-12 | If pattern i parses and every earlier one fails, the result is pattern i's date written as ISO, whatever the later patterns would give. |
| DateNormalizer.NormalizeDate | preprocess/preprocess.py:10 | A successful result always has the `YYYY-MM-DD` shape: ten characters, digits with dashes at positions 4 and 7. |
| DateNormalizer.NormalizeDateFails | preprocess/preprocess.py:6-13 | Fails exactly when the string is not a valid date written in one of the three patterns. The error is `Unable to parse date: ` followed by the input. |
| DateNormalizer.NormalizeDateRejects | preprocess/preprocess.py:13 | When every pattern fails, the result is the error that names the input. |
| DateNormalizer.NormalizeDateFixedPoints | preprocess/preprocess.py:7-10 | A string comes back unchanged exactly when it is a valid date already written as `YYYY-MM-DD`. |
| DateNormalizer.NormalizeDateIdempotent | preprocess/preprocess.py:10 | Normalising a successful result gives the same result again. |
| DateNormalizer.ParseRender | preprocess/preprocess.py:7-10 | A pattern parses `s` to `d` exactly when `d` is a valid date and `s` is `d` written in that pattern. |
| DateNormalizer.RenderParses | preprocess/preprocess.py:7-10 | A valid date written in a pattern parses back to the same date. |
| DateNormalizer.ParsedIsRendered | preprocess/preprocess.py:7-10 | A string a pattern parses is the parsed date written back in that pattern, character for character. |
| DateNormalizer.ParseWith | preprocess/preprocess.py:10 | A parse only ever produces a real calendar day, with leap years by the Gregorian rule. |
| DateNormalizer.DaysInMonth | preprocess/preprocess.py:10 | The length of a month, used by `IsValidDate` for the calendar check the parser makes: 28 to 31 days, fewer than 30 exactly in February, and 29 exactly in February of a Gregorian leap year. |
| DateNormalizer.FormatIso | preprocess/preprocess.py:10 | Writing a valid date as `%Y-%m-%d` gives ten characters: a four-digit year, a two-digit month and a two-digit day, separated by dashes. |
| Digits.PadDigitsValue | preprocess/preprocess.py:10 | A number that fits the width reads back from its zero-padded field. |
| Digits.DigitsValuePadded | preprocess/preprocess.py:10 | A digit field read as a number and padded back to its width is the same field. |
| Digits.IntToDecimalRoundTrip | preprocess/preprocess.py:21 | `int(str(n)) == n`. `str(n)` is canonical, and it is all digits exactly when n is not negative. |
| Digits.CanonicalDecimalRoundTrip | preprocess/preprocess.py:21 | Every canonical decimal string is `str` of the integer it reads as. |
| Digits.NatToDecimalValue | preprocess/preprocess.py:21 | The decimal writing of n denotes n. |
| Digits.NatToDecimalCanonical | preprocess/preprocess.py:21 | The decimal writing of n has no leading zero, and it is "0" exactly when n is 0. |
| Digits.CanonicalNatRoundTrip | preprocess/preprocess.py:21 | A digit string without leading zeros is the decimal writing of its own value. |
| Digits.IntToDecimal | preprocess/preprocess.py:21 | `str` of an integer is never empty. It is all digits exactly when the integer is not negative, and otherwise a `-` followed by digits. |
| RowPipeline.DropNa | preprocess/preprocess.py:19 | The loop yields `WithoutMissing(rows)`: the complete rows, in their order, with their values taken out. |
| RowPipeline.FilterQuantity | preprocess/preprocess.py:20 | The loop yields `WithPositiveQuantity(rows)`: the rows with quantity > 0, in their order. |
| RowPipeline.CastPostal | preprocess/preprocess.py:21 | The new postal code is a canonical decimal string that reads back as the row's integer postal code. Every other field is unchanged. |
| RowPipeline.WithPostalStrings | preprocess/preprocess.py:21 | One row per input row, in order: each postal code reads back as the input row's integer, and every other field is unchanged. |
| RowPipeline.CastPostalCode | preprocess/preprocess.py:21 | The loop yields each row with its postal code replaced by `str` of its integer value, and everything else unchanged. |
| RowPipeline.ApplyDateConversion | preprocess/preprocess.py:22-23 | The loop over one date column yields `WithDatesConverted(rows, col, NormalizeDate)`. |
| RowPipeline.WithDatesConverted | preprocess/preprocess.py:22-23 | A converted column has one row per input row. An error is the error `convert` gave for one of the column's dates. |
| RowPipeline.ColumnStep | preprocess/preprocess.py:22-23 | One row of the column loop: on success the converted prefix grows by that row. On failure the row's error is the result of the whole column. |
| RowPipeline.DatesConvertedOk | preprocess/preprocess.py:22-23 | A column converts exactly when every date in it converts. Each output row is then its input row with that date converted. |
| RowPipeline.DatesConvertedFirstError | preprocess/preprocess.py:22-23 | The error of a column is that of its first date, in row order, that does not convert. |
| RowPipeline.BothDatesConvertedOk | preprocess/preprocess.py:22-23 | Both columns convert exactly when every order date and every ship date converts. Each row then has both its dates converted. |
| RowPipeline.BothDatesConverted | preprocess/preprocess.py:22-23 | Converting `order_date`, then `ship_date`, keeps one row per input row. An error is the error `convert` gave for the order date or the ship date of one of the rows. |
| RowPipeline.FirstBadShipDate | preprocess/preprocess.py:22-23 | When every order date converts, both columns fail with the error of the first ship date, in row order, that does not convert. |
| RowPipeline.Preprocess | preprocess/preprocess.py:16-23 | The stages run in source order give `Preprocessed(table)`. |
| RowPipeline.PreprocessedWith | preprocess/preprocess.py:19-23 | A successful run has exactly as many rows as the table has surviving rows. A failed run reports the error `convert` gave for a date of a surviving row. |
| RowPipeline.SurvivorIndices | preprocess/preprocess.py:19-20 | The surviving positions are in range and strictly increasing. A position is among them exactly when its row is complete and has a positive quantity. |
| RowPipeline.SurvivingRows | preprocess/preprocess.py:19-20 | A row is among the survivors exactly when it is in the table, complete and with a positive quantity. |
| RowPipeline.SurvivingRowsAtIndices | preprocess/preprocess.py:19-20 | The surviving rows are the table's rows at the surviving positions, in order. |
| RowPipeline.SurvivingRowsAppend | preprocess/preprocess.py:19-20 | Filtering a concatenation filters each part. |
| RowPipeline.FilteredAreSurvivors | preprocess/preprocess.py:19-20 | Dropping incomplete rows and then non-positive quantities keeps exactly the surviving rows, in order. |
| RowPipeline.CleanedAtIndices | preprocess/preprocess.py:19-21 | The first three stages give one row per surviving position, each with its postal code cast. |
| RowPipeline.PreprocessedRows | preprocess/preprocess.py:16-23 | On success the output has one row per surviving input row, in the same order. Each output row holds that row's quantity, `str` of its postal code, its converted dates and its other columns. |
| RowPipeline.PreprocessedFails | preprocess/preprocess.py:16-23 | The run fails exactly when some surviving row has an order date or a ship date that does not convert. |
| RowPipeline.BadDateFails | preprocess/preprocess.py:22-23 | A surviving row with a date that does not convert makes the run fail. |
| RowPipeline.NoBadDateSucceeds | preprocess/preprocess.py:22-23 | When every surviving row's dates convert, the run succeeds. |
| RowPipeline.PreprocessedReportsFirstBadOrderDate | preprocess/preprocess.py:22 | The error is that of the first surviving row, in table order, whose order date does not convert. |
| RowPipeline.PreprocessedReportsFirstBadShipDate | preprocess/preprocess.py:22-23 | When every order date converts, the error is that of the first surviving row whose ship date does not convert. |
| RowPipeline.OnlySurvivorsMatter | preprocess/preprocess.py:19-23 | Two tables with the same surviving rows have the same outcome. |
| RowPipeline.DroppedRowIsInert | preprocess/preprocess.py:19-23 | Inserting an incomplete row, or one with quantity <= 0, anywhere changes nothing. Its dates are never parsed. |
| RowPipeline.SurvivingRowsSkip | preprocess/preprocess.py:19-20 | A non-surviving row contributes nothing to the survivors, wherever it sits. |
| RowPipeline.PreprocessedRowInvariants | preprocess/preprocess.py:16-23 | With the real normaliser, every output row has: a positive quantity; a canonical postal code that `int` then `str` leave unchanged; and both dates in `YYYY-MM-DD` form, which normalising leaves unchanged. |
| Scenarios.IsoDateFixed | preprocess/preprocess.py:7-10 | "2021-03-01" normalises to itself. |
| Scenarios.DayFirstDashDate | preprocess/preprocess.py:7-10 | "05-03-2021" fails the first pattern and normalises to "2021-03-05" through the second. |
| Scenarios.DayFirstSlashDate | preprocess/preprocess.py:7-10 | "01/02/2020" fails the first two patterns and normalises to "2020-02-01" through the third. |
| Scenarios.InvalidMonthRejected | preprocess/preprocess.py:8-13 | "13-13-2020" is rejected with "Unable to parse date: 13-13-2020". |
| Scenarios.NonLeapDayRejected | preprocess/preprocess.py:8-13 | "29-02-2021" is rejected, because 2021 is not a leap year. |
| Scenarios.TwoDigitYearRejected | preprocess/preprocess.py:8-13 | "05-03-21" is rejected. |
| Scenarios.CompleteRowCleaned | preprocess/preprocess.py:16-23 | A complete row with quantity 5 comes out with postal code "94107" and dates "2021-03-01" and "2021-03-05". |
| Scenarios.ZeroQuantityRowDropped | preprocess/preprocess.py:20 | A row with quantity 0 is removed, and the run succeeds with an empty table. |
| Scenarios.MissingShipDateRowDropped | preprocess/preprocess.py:19 | A row with an empty ship date is removed before its invalid order date is ever parsed. |
| Scenarios.BadDateAbortsRun | preprocess/preprocess.py:22 | A kept row with the order date "13-13-2020" makes the run fail with that date's message. |

## Left out

- Reading and writing CSV files: the output file is not modelled. Nor are the column order of the written table and its `index=False` formatting. A table is a sequence of rows with the four named columns plus the rest in order; a missing column (a `KeyError` in pandas) is outside this shape.
- The success `print` and the `__main__` block are outside the modelled transform: the input and output paths, the existence checks, the skipping when the output exists, the error printing and the exit codes.
- Numeric types: `quantity` and `postal_code` are modelled as unbounded integers. Pandas reads a column that has gaps as floating point, and `astype(int)` truncates a fractional postal code toward zero. Fractional values, NaN-to-int failures and 64-bit overflow are not modelled.
- Date-parser leniency: the exact pattern grammar above replaces the parsing library. Some inputs the library accepts are rejected by the model: one-digit day or month fields, surrounding whitespace, and any other leniency of the library.
- Date range: the library's timestamp range, 1677-09-21 to 2262-04-11, is not modelled. Years 1 to 9999 are accepted, the range of Python's `date`.
- Error type: the error is modelled as its message string. The exception class (`ValueError`) is left out.
- Non-string date cells: a cell the reader parsed as something other than text is not modelled. Every date cell is a string.
