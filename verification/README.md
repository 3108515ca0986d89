# Spending analysis, modelled in Dafny

The batch job reads a table of card transactions. Each row has a client
identifier, a merchant identifier and an amount written as currency text such
as `$1,234.56`. The job turns every amount into a number with
`clean_amount`. It then summarizes the table twice: once per client and once
per merchant. Each summary row gives the total spent, the mean transaction and
the number of transactions. This project models that analysis step and proves
what it computes.

- `results.dfy` (`Results`): the `Option` and `Result` wrappers.
- `amount_normalizer.dfy` (`AmountNormalizer`): `clean_amount`. The two
  chained `replace` calls delete every `$` and `,`, and `float()` then reads
  the rest. The reader accepts what `float()` accepts for ASCII decimal text:
  surrounding whitespace, an optional sign, digits with an optional decimal
  point, and an optional exponent. Amounts are exact `real` values. Failures
  are `Err` values: `EmptyAmount` for blank text, `MalformedAmount` otherwise.
- `amount_format.dfy` (`AmountFormat`): writes a whole number of cents as
  currency text (`-$1,234.56`) and as plain decimal text. It proves that
  `clean_amount` reads every such text back as the same number of cents, for
  every integer.
- `keys.dfy` (`Keys`): identifier values, whole numbers or text, in the
  ascending order the grouping lists its groups in.
- `aggregation.dfy` (`Aggregation`): the `groupby(...)["amount"].agg(["sum",
  "mean", "count"]).reset_index()` step. The engine is a fold that inserts
  each row into an ascending list of running groups. It is related to an
  independent description of a summary table, `IsSummaryOf`, which is stated
  over the rows themselves. The description has exactly one solution, and the
  engine computes it.
- `spending_analysis.dfy` (`SpendingAnalysis`): `analyze_spending`. It
  normalizes the amount column, stopping at the first bad row, then builds the
  two summary tables with their column headers. It also models the code as
  written, which groups an undefined name (see Findings).
- `scenario.dfy` (`Scenario`): a three-row ledger worked through the whole
  analysis.

## Model

| member | source | states |
|---|---|---|
| AmountNormalizer.RemoveAllSpec | app/spending_analysis.py:10 | one `replace(c, '')` leaves no `c` behind, shortens the text by the number of `c`s, and keeps every other character as often as it occurred |
| AmountNormalizer.Strip | app/spending_analysis.py:10 | after both `replace` calls the text contains neither `$` nor `,` |
| AmountNormalizer.StripSpec | app/spending_analysis.py:10 | both `replace` calls together remove exactly the `$` and `,` characters and keep the count of every other character |
| AmountNormalizer.StripIsKeep | app/spending_analysis.py:10 | the two chained `replace` calls equal a single left-to-right filter that drops `$` and `,` |
| AmountNormalizer.StripAppend | app/spending_analysis.py:10 | stripping a concatenation strips each part separately, so a `$` or `,` is removed wherever it stands |
| AmountNormalizer.StripClean | app/spending_analysis.py:10 | text with no `$` or `,` passes through stripping unchanged |
| AmountNormalizer.StripIdempotent | app/spending_analysis.py:10 | stripping twice is the same as stripping once |
| AmountNormalizer.TrimBounds | app/spending_analysis.py:10 | the text `float()` reads is the slice between the first and the last non-whitespace character; everything cut off is whitespace |
| AmountNormalizer.TrimBlank | app/spending_analysis.py:10 | nothing is left after trimming exactly when the text is all whitespace |
| AmountNormalizer.FirstIndexOf | app/spending_analysis.py:10 | the position found is the first occurrence of one of the given characters, or the end of the text when there is none |
| AmountNormalizer.Parse | app/spending_analysis.py:10 | the model's `float()` fails with `EmptyAmount` exactly on blank text and otherwise with `MalformedAmount` naming the text; a value needs a digit, and a negative value needs a `-` |
| AmountNormalizer.BlankAfterStrip | app/spending_analysis.py:10 | stripping leaves blank text exactly when the input holds only whitespace, `$` and `,` |
| AmountNormalizer.CleanAmount | app/spending_analysis.py:9-10 | `clean_amount` fails as empty exactly when the text holds only whitespace, `$` and `,`; never returns a value for text without digits; and returns a negative value only if the text has a `-` |
| AmountFormat.NatDigits | app/spending_analysis.py:10 | the decimal digits written for a whole number read back as that number |
| AmountFormat.StripGroupThousands | app/spending_analysis.py:10 | removing the thousands separators from grouped digits gives back the digits |
| AmountFormat.StripFormatCurrency | app/spending_analysis.py:10 | stripping currency text such as `-$1,234.56` gives the plain decimal `-1234.56` |
| AmountFormat.ParseFormatPlain | app/spending_analysis.py:10 | `float()` reads the plain decimal text of any whole number of cents back as that many hundredths |
| AmountFormat.CleanAmountFormatCurrency | app/spending_analysis.py:8-10 | round trip: `clean_amount` of any amount written as currency text (sign, symbol, thousands separators, two decimals) is that amount |
| AmountFormat.CleanAmountIgnoresSeparator | app/spending_analysis.py:10 | putting a `$` or `,` anywhere in the text does not change the result |
| AmountFormat.CleanAmountOfClean | app/spending_analysis.py:10 | on text with no `$` or `,`, `clean_amount` is exactly `float()` |
| AmountFormat.CleanAmountOfStripped | app/spending_analysis.py:10 | cleaning already stripped text gives the same result as cleaning the original |
| AmountFormat.ParseNegate | app/spending_analysis.py:10 | a leading minus before unsigned text without whitespace reads exactly when that text reads, and negates its value |
| AmountFormat.CleanAmountThousands | app/spending_analysis.py:8-10 | `$1,234.56` and `1234.56` both clean to 1234.56 |
| AmountFormat.CleanAmountRefund | app/spending_analysis.py:10 | a refund written `-$12.00` cleans to -12 |
| AmountFormat.CleanAmountRejectsWord | app/spending_analysis.py:10 | `abc` is an error, not zero |
| AmountFormat.CleanAmountRejectsSymbol | app/spending_analysis.py:10 | a lone `$` is blank once stripped and is the empty error, not zero |
| Keys.TextLessIrreflexive | app/spending_analysis.py:36 | no text identifier sorts before itself |
| Keys.TextLessTransitive | app/spending_analysis.py:36 | the order of text identifiers is transitive |
| Keys.TextLessTotal | app/spending_analysis.py:36 | two different text identifiers are ordered one way or the other |
| Keys.LessTransitive | app/spending_analysis.py:36 | the order of group keys is transitive |
| Keys.LessTrichotomy | app/spending_analysis.py:36 | any two group keys are equal or ordered exactly one way, so the ascending group order is determined |
| Aggregation.Insert | app/spending_analysis.py:36 | adding one row to ascending running groups keeps them ascending, adds its key, and raises only that key's count by one and sum by the amount |
| Aggregation.GroupRows | app/spending_analysis.py:36 | the groups are ascending, one per distinct key, none empty; each key's count and sum equal the number and the sum of its rows; the sums add up to the table total and the counts to the number of rows |
| Aggregation.AbsentKey | app/spending_analysis.py:36 | a key with no group has count and sum zero |
| Aggregation.GroupLookup | app/spending_analysis.py:36 | in ascending groups each key's count and sum are those of its single group |
| Aggregation.KeysOfCount | app/spending_analysis.py:36 | a key has a group exactly when at least one row carries it |
| Aggregation.Summarize | app/spending_analysis.py:36-37 | a summary row keeps the group's key, sum and count, and its mean times its count is the sum |
| Aggregation.SummarizeAll | app/spending_analysis.py:36-37 | one summary row per group, in group order; the `total_spent` column adds up to the group sums and `transaction_count` to the group counts |
| Aggregation.SummariesOfGroups | app/spending_analysis.py:36-37 | ascending groups with the right keys, counts and sums yield a table that meets the summary description |
| Aggregation.Aggregate | app/spending_analysis.py:36-37 | the grouped table meets the summary description: ascending unique keys, exactly the keys present, each with its count (at least 1), its sum and the mean sum/count. `total_spent` adds up to the table total and `transaction_count` to the number of rows |
| Aggregation.SameKeyOrder | app/spending_analysis.py:36 | two ascending tables with the same key set list the same keys in the same order |
| Aggregation.MeanTimesCount | app/spending_analysis.py:36-37 | in any summary table, mean times count equals the total |
| Aggregation.SummaryUnique | app/spending_analysis.py:36-37 | at most one table meets the summary description of given rows |
| Aggregation.AggregateCharacterized | app/spending_analysis.py:36-37 | a table is the grouped result exactly when it meets the summary description |
| Aggregation.CountSumConcat | app/spending_analysis.py:36 | per-key counts and sums of two tables put together are the sums of each |
| Aggregation.CountSumPermutation | app/spending_analysis.py:36 | per-key counts and sums do not depend on the order of the rows |
| Aggregation.SummaryTransfer | app/spending_analysis.py:36-37 | a summary depends on the rows only through their keys, per-key counts and per-key sums |
| Aggregation.AggregatePermutation | app/spending_analysis.py:36-37 | reordering the rows does not change either summary table |
| Aggregation.AggregateSingle | app/spending_analysis.py:36-37 | a one-row table summarizes to that key with its amount as total and mean, and count 1 |
| Aggregation.AggregateEmpty | app/spending_analysis.py:36-37 | an empty table summarizes to an empty table |
| SpendingAnalysis.Header | app/spending_analysis.py:37 | the summary has four columns, the first named after the key column |
| SpendingAnalysis.NormalizeTable | app/spending_analysis.py:33 | a normalized table has one entry per row; a failure names a row of the table |
| SpendingAnalysis.NormalizeTableSpec | app/spending_analysis.py:33 | normalization succeeds exactly when every amount cleans, and then each entry keeps its row's identifiers with the cleaned amount; otherwise the error names the first failing row, its text and the reason |
| SpendingAnalysis.Summaries | app/spending_analysis.py:36-43 | both tables have their headers and meet the summary description for their column; both total the same amount and count every row |
| SpendingAnalysis.AnalyzeSpending | app/spending_analysis.py:31-45 | the analysis succeeds exactly when normalization does, and then both tables summarize the normalized table and each counts every transaction; otherwise it fails with the normalization error |
| SpendingAnalysis.AnalyzeSpendingVerdict | app/spending_analysis.py:31-33 | the analysis succeeds exactly when every amount cleans; a failure names the first row whose amount does not |
| SpendingAnalysis.AnalyzeGrouping | app/spending_analysis.py:1-71 | once the amounts normalize, grouping the table read from a name succeeds exactly for the parameter `dataframe`; a name the module binds (imports, settings, functions, the module attributes such as `__name__`, the four built-ins it uses) fails for lack of `groupby`, and any other name is undefined; a normalization error comes first |
| SpendingAnalysis.ReadNamesLackGroupBy | app/spending_analysis.py:10-71 | the built-in `float` read at line 10 and the module's `__name__` read at line 71 are bound, so grouping either fails for lack of `groupby`, not as undefined |
| SpendingAnalysis.AnalyzeSpendingAsWritten | app/spending_analysis.py:31-45 | as written, the analysis always fails: with the undefined name `df` once the amounts normalize, and with the normalization error otherwise |
| SpendingAnalysis.CorrectedGrouping | app/spending_analysis.py:31-43 | on every table, grouping the parameter instead of `df` is exactly the corrected analysis |
| Scenario.LedgerAmounts | app/spending_analysis.py:10 | `$10.00`, `$5.50` and `$20.00` clean to 10, 5.5 and 20 |
| Scenario.LedgerNormalizes | app/spending_analysis.py:33 | the three-row ledger normalizes to its entries |
| Scenario.SummariesOfLedger | app/spending_analysis.py:36-43 | the ledger's client summary is 1: 15.50/7.75/2 and 2: 20.00/20.00/1; its merchant summary is A: 30.00/15.00/2 and B: 5.50/5.50/1 |
| Scenario.LedgerAnalysis | app/spending_analysis.py:31-45 | on the ledger the corrected analysis gives both tables with their headers, while the code as written fails on `df` |

## Left out

- The object store is not modelled: `read_file_from_s3` and `upload_file_to_s3` (lines 13-29, 51, 57) are I/O.
- `read_file_from_s3` and `upload_file_to_s3` read `s3` (lines 15, 25) and `io` (line 17), which the module never binds. As written, `main` therefore fails at line 15, and line 20 exits before `analyze_spending` runs. The model takes the analysis on its own.
- The bucket and key come from the environment (lines 5-6); that is configuration.
- The local CSV files are not modelled: `to_csv` (lines 48, 54) is I/O.
- The console output is not modelled: `print` and `head()` (lines 16, 19, 26, 28, 38-39, 44-45, 60) write to the console.
- `exit(1)` is not modelled. The job exits after a failure (lines 20, 29, 61); the model returns the failure as an `Err` value instead.
- `main` (lines 66-72) only chains the read and the analysis.
- SpendingAnalysis.AnalyzeGrouping: of the built-in names only the four the module uses (`float`, `print`, `exit`, `Exception`) are in its scope, so any other built-in is read as undefined, where Python would fail for lack of `groupby`. None of them is `df`.
- The scope of `analyze_spending` is modelled as it stands at line 36. The locals bound later, `client_summary`, `merchant_summary` and the exception name `e` of line 59, are left out; at line 36 they are still unbound.
- Line 33 writes the cleaned column back into the caller's table in place. The model returns the normalized entries instead and does not model that change; `main` (line 69) does not use the table afterwards.
- `pandas.read_csv` is not modelled: its parsing and type inference are outside the model. Each table row is already split into its two identifiers and its amount text.
- An amount column that `read_csv` inferred as numbers is not modelled. In that case `replace` on a float raises `AttributeError`.
- Missing values (NaN) are not modelled, whether in the amount or in the identifiers. `groupby` drops NaN keys.
- The columns of the table other than the two identifiers and the amount are not modelled.
- `reset_index` is not modelled beyond turning the key into the first column.
- AmountNormalizer.Parse: `float()` raises one `ValueError` naming the text for blank and malformed text alike. The split into `EmptyAmount` and `MalformedAmount` is the model's own.
- AmountNormalizer.Parse: amounts are exact reals, so the binary floating-point rounding of `float()` and of pandas' sum and mean is not modelled.
- AmountNormalizer.Parse: the non-ASCII whitespace and digits that `float()` accepts are rejected here.
- AmountNormalizer.Parse: `inf`, `nan` and `_` digit separators are rejected here, although `float()` accepts them.
- Aggregation.Aggregate: the pandas sum of a group's amounts is modelled as an exact sum. The floating-point summation order of pandas is not modelled.
- A column that mixes numeric and text identifiers is not modelled: the model puts numbers before text, and the pandas order for such keys is outside the model.
- Amounts are not checked for a single leading `$` or for comma-grouped digits. The code deletes every `$` and `,` wherever they stand, so `12$` and `1,2,3` are accepted, and so they are in the model.
- The parenthesized refund form `($12.00)` is rejected by the code, and so by the model. A refund is written with a leading minus, `-$12.00`.

## Findings

| source | as written | input that shows it | evidently intended | confidence | as-written member | corrected member |
|---|---|---|---|---|---|---|
| app/spending_analysis.py:36 | both summaries group `df`, a name neither the function nor the module defines (also line 42), so `analyze_spending` raises `NameError` at line 36 once line 33 succeeds; line 59 catches it and line 61 exits | the ledger `[(1, A, "$10.00"), (1, B, "$5.50"), (2, A, "$20.00")]`: as written the result is the undefined-name error, where the clients 1: 15.50/7.75/2, 2: 20.00/20.00/1 were expected | group the parameter `dataframe`, whose amounts were just cleaned | high (not executed) | SpendingAnalysis.AnalyzeSpendingAsWritten, Scenario.LedgerAnalysis | SpendingAnalysis.AnalyzeSpending, SpendingAnalysis.CorrectedGrouping |
