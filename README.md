# Report cards from grade sheets

A school back end turns grade sheets into report cards (*bulletins*). The
grades are exported from the school-management system (Yparéo). This
project models the deterministic core of that back end in Dafny and proves
properties of the model. The core has three parts.

**Reading grades.**
- A grade cell such as `"10 (0,25) - 15 (0,75)"` or `"17 - Absent au devoir - 16"` is read as one two-decimal grade.
- Course grades are combined into teaching-unit (UE) averages, weighted by course credits (ECTS).
- A course is classified `VA` (validated), `C` (compensable) or `R` (to retake).
- A UE and the year are classified `VA` or `NV`.
- A course keeps its credits only when its grade is at least 8.
- For the first work-study semester (`modeleBG-ALT-S1-2024-2025.docx`), the model builds the whole `student_data` dictionary that fills the Word document: grades, UE averages, overall average, states, and credits earned.
- For every other layout it models the column lists, the credit slot ranges and the required-credit check.

**Spreadsheet transformations.**
- A worksheet is a map from (column, row) to text.
- `copy_multiple_cells` copies column pairs, compacting each column and skipping footer rows.
- The fill step sorts absences into three lists, joins learners with their groups, and looks up and checks a fill configuration.
- The header comparison chooses the Word model.

**Static tables and helpers.**
- The ECTS credit table and its lookup.
- The group-to-template table.
- The absence service.
- Minutes written as `XhYm`.

Modules, in dependency order:

| file | module | models |
|---|---|---|
| wrappers.dfy | Wrappers | `Option`, `Result` |
| text.dfy | Text | `strip`, `find`, `split`, `replace`, `upper`, `str(int)`, `int(str)` |
| decimal.dfy | Decimal | `float(str)` on decimal text, `round(x, 2)`, `f"{x:.2f}"` and the round trip |
| sums.dfy | Sums | the weighted-sum accumulation shared by the grade parsers |
| cells.dfy | Cells | reading pieces of a grade cell |
| grades.dfy | Grades | the three grade parsers and `calculate_ue_ects` |
| states.dfy | States | `get_etat`, `get_etat_ue`, `get_total_etat`, `adjust_ects` |
| ects.dfy | Ects | `ECTS_DATA`, `get_ects_for_template` |
| report.dfy | Report | the ALT-S1 `student_data` of one student row |
| layouts.dfy | Layouts | per-layout columns, credit ranges, required-credit check |
| absences.dfy | Absences | `process_absences` |
| minutes.dfy | Minutes | `convert_minutes_to_hours_and_minutes` |
| sheets.dfy | Sheets | `copy_multiple_cells`, `match_template_and_get_word` |
| fill.dfy | Fill | the data preparation of `fill_template_with_ypareo_data` |
| templates.dfy | Templates | `TEMPLATE_MAPPING` and its lookup |

Python behaviour written out in the model:
- Whitespace is Python's `str.isspace()` set: the ASCII blanks, U+001C to U+001F, U+0085, the no-break spaces U+00A0 and U+202F, and the Unicode space and line separators. `strip`, `float` and `int` remove it around their argument.
- `float(...)` of cell text parses a restricted grammar: optional whitespace, an optional sign, ASCII digits, an optional `.` and ASCII digits. It returns `None` where Python raises; the inputs Python accepts beyond this grammar are listed under "Left out".
- Rounding to two decimals is exact half-to-even rounding on reals.
- `int(...)` parses optional whitespace, a sign and ASCII decimal digits.
- `//` and `%` by 60 agree with Dafny's operators for every integer, because the divisor is positive.

Behaviours of the code that a reader might not expect:
- `adjust_ects` gives `"0"` credits for an empty grade, because `float(note_str) if note_str else 0` reads it as 0 (app/api/endpoints/uploads.py:2032-2034).
- `get_etat` never reads its `has_r_in_ue` argument: it is the three-tier `VA`/`C`/`R` classifier (app/api/endpoints/uploads.py:179-209).
- Grade cells are split on `-`, not on `" - "` (app/api/endpoints/uploads.py:90 and 124).

## Model

| member | source | states |
|---|---|---|
| Text.Strip | app/api/endpoints/uploads.py:84 | the stripped text is no longer than the input and neither starts nor ends with Python whitespace, no-break spaces included |
| Text.StripSlice | app/api/endpoints/uploads.py:84 | the stripped text is a slice of the input with only whitespace cut before and after it, so with `Strip`'s own ensures it is exactly `str.strip()` |
| Text.StripIdentity | app/api/endpoints/uploads.py:84 | text that neither starts nor ends with Python whitespace is left unchanged |
| Text.StripNonBlank | app/api/endpoints/uploads.py:81 | text that starts with a character Python does not count as whitespace is not blank once stripped |
| Text.FindFrom | app/api/endpoints/uploads.py:102 | the index found is the first occurrence of the character at or after the start, or the length when there is none |
| Text.Find | app/api/endpoints/uploads.py:102 | `find` gives the first occurrence, with no earlier one, or the length |
| Text.FindAbsent | app/api/endpoints/uploads.py:100 | `find` gives the length exactly when the character does not occur |
| Text.Split | app/api/endpoints/uploads.py:90 | `split` never gives an empty list, and gives two pieces or more once the separator occurs |
| Text.SplitJoin | app/api/endpoints/uploads.py:90 | no piece of `split(c)` holds `c`, and joining the pieces with `c` gives the text back |
| Text.ReplaceChar | app/api/endpoints/uploads.py:104 | `replace` of one character keeps the length and swaps exactly the occurrences |
| Text.RemoveChar | app/api/endpoints/uploads.py:106 | removing a character leaves none of it and never lengthens the text |
| Text.RemoveCharAbsent | app/api/endpoints/uploads.py:106 | `replace(a, "")` leaves a text without `a` unchanged |
| Text.RemoveCharAppend | app/api/endpoints/uploads.py:106 | `replace(a, "")` of `s + t` is that of `s` followed by that of `t`, so every other character is kept, in order |
| Text.ReplaceAllAbsent | app/services/ects_service.py:32 | replacing an absent pattern leaves the text unchanged |
| Text.Missing | app/services/excel_service.py:504 | the missing keys are exactly the required keys absent from the dictionary |
| Text.Upper | app/services/excel_service.py:332 | `upper` keeps the length |
| Text.UpperEach | app/services/excel_service.py:332 | `upper` maps each character on its own and in place, the ASCII lower-case letters to upper case and every other character to itself |
| Text.AllDigitsEach | app/services/ects_service.py:42 | a digit string is one whose every character is a digit |
| Text.NatToString | app/services/ects_service.py:42 | `str(n)` is one or more digits without a leading zero |
| Text.NatToStringRoundTrip | app/services/ects_service.py:42 | reading back the digits of `str(n)` gives `n` |
| Text.NatToStringInjective | app/services/ects_service.py:42 | different numbers print differently |
| Text.NumberedInjectiveAll | app/api/endpoints/uploads.py:635 | `f"ECTS{i}"` names differ for different `i` |
| Text.ParseIntRoundTrip | app/api/endpoints/uploads.py:2045 | `int(str(i)) == i` for every integer |
| Text.ParseInt | app/api/endpoints/uploads.py:2045 | `int(s)`: optional whitespace, a sign and digits; its meaning is stated by ParseIntDigits and ParseIntRoundTrip |
| Decimal.Round2 | app/api/endpoints/uploads.py:68 | the rounded count of hundredths is within half a hundredth of the number, and an exact tie goes to the even neighbour, which fixes the count |
| Decimal.Round2Monotone | app/api/endpoints/uploads.py:68 | rounding never reverses the order of two numbers |
| Decimal.Round2Exact | app/api/endpoints/uploads.py:68 | a whole number of hundredths rounds to itself |
| Decimal.Round2Between | app/api/endpoints/uploads.py:68 | a number between two whole numbers of hundredths rounds between them |
| Decimal.RoundTo2Between | app/api/endpoints/uploads.py:68 | the rounded value stays between two whole numbers of hundredths around the number |
| Decimal.Format2RoundTrip | app/api/endpoints/uploads.py:113 | `float(f"{x:.2f}")` is `x` rounded to the hundredth |
| Decimal.FormatHundredthsRoundTrip | app/api/endpoints/uploads.py:113 | the text of `n` hundredths reads back as `n / 100`, negative amounts included |
| Decimal.Format2NoComma | app/api/endpoints/uploads.py:197 | two-decimal text holds no comma, so `replace(",", ".")` leaves it unchanged |
| Decimal.ParseFloat | app/api/endpoints/uploads.py:104-106 | `float(s)` on plain decimal text; Format2RoundTrip and FormatHundredthsRoundTrip state what it reads back |
| Decimal.Format2 | app/api/endpoints/uploads.py:113 | `f"{x:.2f}"`, at least four characters; Format2RoundTrip and Format2NoComma state its meaning |
| Sums.AccumulateRead | app/api/endpoints/uploads.py:94-109 | the accumulation loop gives the weighted sum and total weight of the pieces read, or aborts |
| Sums.FoldMalformed | app/api/endpoints/uploads.py:104-118 | one malformed piece anywhere aborts the whole accumulation |
| Sums.FoldSome | app/api/endpoints/uploads.py:94-109 | with no malformed piece the accumulation runs to the end |
| Sums.FoldSkipped | app/api/endpoints/uploads.py:96-98 | a skipped piece contributes nothing, wherever it stands |
| Sums.FoldAppend | app/api/endpoints/uploads.py:94-109 | accumulating `a + b` is accumulating `a`, then `b` |
| Sums.FoldBetween | app/api/endpoints/uploads.py:94-109 | with grades in `[lo, hi]` and non-negative weights, the weighted sum stays between `lo` and `hi` times the total weight |
| Sums.FoldTotalPositive | app/api/endpoints/uploads.py:159-163 | with weights of at least 1, the total weight is positive exactly when some piece is weighted |
| Sums.AverageNone | app/api/endpoints/uploads.py:168-169 | with weights of at least 1 and nothing malformed, there is no average exactly when no piece is weighted |
| Sums.FoldUnitWeights | app/api/endpoints/uploads.py:124-126 | with every weight 1, the totals are the sum and the count of the grades |
| Sums.AverageBetween | app/api/endpoints/uploads.py:111-113 | the average of bounded totals lies in `[lo, hi]` |
| Cells.CoefTerm | app/api/endpoints/uploads.py:97-106 | in the coefficient form, a piece naming an absence or lacking `(` or `)` is skipped |
| Cells.PlainTerm | app/api/endpoints/uploads.py:124 | in the plain form every grade weighs 1 |
| Cells.PieceTerms | app/api/endpoints/uploads.py:90-106 | each `-`-separated piece is read in the form of its cell |
| Cells.WeightedItem | app/api/endpoints/uploads.py:36-62 | an item of `calculate_weighted_average` is never fatal, and a blank one is skipped |
| Cells.WeightedItems | app/api/endpoints/uploads.py:36-62 | each item is read on its own and none is fatal |
| Cells.AtLeastOne | app/api/endpoints/uploads.py:161 | `max(e, 1)` is at least 1 and at least `e` |
| Cells.EctsTerm | app/api/endpoints/uploads.py:148-166 | a pair is kept exactly when the grade is present, converts and is positive and the credit converts; it then weighs `max(credit, 1)` |
| Cells.Zip | app/api/endpoints/uploads.py:148 | `zip` gives as many pairs as the shorter list, pairing equal positions |
| Cells.EctsTerms | app/api/endpoints/uploads.py:148-166 | the pairs of the zip read as terms, none fatal, each kept one weighing at least 1 |
| Cells.FormattedNotBlank | app/api/endpoints/uploads.py:193 | two-decimal text is never blank |
| Cells.GradeOfFormatted | app/api/endpoints/uploads.py:197 | `get_etat` reads a two-decimal grade as its rounded value |
| Cells.FloatOrZeroFormatted | app/api/endpoints/uploads.py:2032 | `float(s) if s else 0` reads a two-decimal grade as its rounded value |
| Cells.AverageOrZeroFormatted | app/api/endpoints/uploads.py:224 | `get_etat_ue` reads a two-decimal average as its rounded value |
| Grades.ComputeSingleNoteAverage | app/api/endpoints/uploads.py:75-135 | the imperative `calculate_single_note_average` computes the specified cell text |
| Grades.SingleNoteBlank | app/api/endpoints/uploads.py:81-82 | a blank cell gives `""` |
| Grades.SingleNoteMalformed | app/api/endpoints/uploads.py:104-118 | in the coefficient form, one unreadable grade or coefficient voids the whole cell |
| Grades.SingleNotePlainMean | app/api/endpoints/uploads.py:124-126 | without `(`, the value is the arithmetic mean of the kept grades |
| Grades.SingleNoteBetween | app/api/endpoints/uploads.py:87-114 | with non-negative coefficients, the average lies between the smallest and the largest grade |
| Grades.SingleNoteReadsBack | app/api/endpoints/uploads.py:113 | the text produced reads back as the average rounded to the hundredth |
| Grades.SingleNoteAverage | app/api/endpoints/uploads.py:75-135 | the value of `calculate_single_note_average`, specified by SingleNoteBlank, SingleNoteMalformed, SingleNotePlainMean, SingleNoteBetween and SingleNoteReadsBack |
| Grades.ComputeWeightedAverage | app/api/endpoints/uploads.py:24-72 | the loop of `calculate_weighted_average` computes the specified average |
| Grades.WeightedAverageSkips | app/api/endpoints/uploads.py:37-38 | an unreadable item, a blank one say, leaves the average unchanged |
| Grades.WeightedAverageBetween | app/api/endpoints/uploads.py:64-68 | the result is 0 or lies between the smallest and the largest grade |
| Grades.WeightedAverage | app/api/endpoints/uploads.py:24-72 | the value of `calculate_weighted_average`, specified by WeightedAverageSkips and WeightedAverageBetween |
| Grades.ComputeEctsWeightedAverage | app/api/endpoints/uploads.py:138-176 | the loop of `calculate_ects_weighted_average` computes the specified average |
| Grades.EctsAverageBlank | app/api/endpoints/uploads.py:168-169 | the result is `""` exactly when no pair of the zip is kept |
| Grades.EctsAverageBetween | app/api/endpoints/uploads.py:148-172 | the average lies between the smallest and the largest kept grade |
| Grades.EctsAverageZip | app/api/endpoints/uploads.py:148 | items of the longer list without a partner are ignored |
| Grades.EctsAverageSmallCredit | app/api/endpoints/uploads.py:161 | a credit of 1 or less weighs like a credit of 1 |
| Grades.EctsWeightedAverage | app/api/endpoints/uploads.py:138-176 | the value of `calculate_ects_weighted_average`, specified by EctsAverageBlank, EctsAverageBetween, EctsAverageZip and EctsAverageSmallCredit |
| Grades.CalculateUeEcts | app/api/endpoints/uploads.py:261-271 | `calculate_ue_ects` as written answers with the credit of the first pair that converts, or `None` |
| Grades.CalculateUeEctsTotal | app/api/endpoints/uploads.py:260-270 | the intended loop sums the credits of every pair whose grade reaches 8 |
| Grades.UeEctsTotalBounded | app/api/endpoints/uploads.py:260-270 | with non-negative credits, the UE earns between none and all of its nominal credits |
| Grades.UeEctsTotalAppend | app/api/endpoints/uploads.py:267-268 | a pair whose grade reaches 8 adds all of its credits, whatever came before |
| Grades.UeEctsSinglePair | app/api/endpoints/uploads.py:261-271 | on a single pair the code as written agrees with the sum |
| Grades.UeCreditFormatted | app/api/endpoints/uploads.py:265-268 | a two-decimal grade earns its credits when it rounds to 8 or more, and 0 otherwise |
| Grades.UeEctsStopsAtFirstPair | app/api/endpoints/uploads.py:271 | on grades 12 and 9 with credits 3 and 2, the code as written gives 3 where the sum is 5 |
| Grades.UeEctsAsWritten | app/api/endpoints/uploads.py:261-271 | `calculate_ue_ects` with its `return` inside the loop; UeEctsSinglePair and UeEctsStopsAtFirstPair compare it with the sum |
| Grades.UeEctsTotal | app/api/endpoints/uploads.py:260-270 | the intended total of the credits of every pair graded 8 or more, specified by UeEctsTotalBounded, UeEctsTotalAppend and UeCreditFormatted |
| States.Classify | app/api/endpoints/uploads.py:200-207 | a present grade is classified `VA`, `C` or `R` |
| States.Etat | app/api/endpoints/uploads.py:179-209 | `""` exactly for no grade, `VA` exactly from 10, `R` exactly below 8, `C` exactly from 8 to below 10 |
| States.EtatIgnoresHasR | app/api/endpoints/uploads.py:179 | the state does not depend on the `has_r_in_ue` flag |
| States.EtatOfFormatted | app/api/endpoints/uploads.py:197-207 | a two-decimal grade is classified on its rounded value |
| States.EtatMonotone | app/api/endpoints/uploads.py:200-207 | a better grade never gets a worse state |
| States.EtatUe | app/api/endpoints/uploads.py:213-236 | only `VA` or `NV`; `VA` exactly when no state is `R` and the average, empty or invalid counting as 0, is at least 10 |
| States.EtatUeOfFormatted | app/api/endpoints/uploads.py:223-233 | a two-decimal average is judged on its rounded value |
| States.EtatUeNoAverage | app/api/endpoints/uploads.py:224 | a UE without an average is never validated |
| States.EtatUeFailedCourse | app/api/endpoints/uploads.py:229-236 | one course below 8 keeps the UE from being validated |
| States.TotalEtat | app/api/endpoints/uploads.py:273-283 | only `VA` or `NV`; `VA` exactly when all four UE states are `VA` |
| States.AdjustEcts | app/api/endpoints/uploads.py:2023-2036 | the original credits or `"0"`; the original for a UE average or a non-numeric grade; otherwise `"0"` exactly for a grade below 8, including an empty one, or the state `R` |
| States.AdjustEctsBlank | app/api/endpoints/uploads.py:2032-2034 | an empty grade withdraws the credits |
| States.AdjustEctsOfFormatted | app/api/endpoints/uploads.py:2032-2034 | a two-decimal grade loses its credits exactly when it rounds below 8 |
| States.AdjustEctsBounded | app/api/endpoints/uploads.py:2023-2036 | for non-negative credits, the kept credits are an integer between 0 and the nominal credits |
| Ects.RecordMap | app/services/ects_service.py:5-24 | a record stands for the dictionary with keys `ECTS1` to `ECTS<n>` |
| Ects.RecordMapAt | app/services/ects_service.py:5-24 | slot `i` holds the `i`-th credit of the record |
| Ects.GetEctsForTemplate | app/services/ects_service.py:26-49 | an error naming the normalised name when it is not in the table; otherwise exactly the keys of its first record |
| Ects.OneRecordEach | app/services/ects_service.py:5-24 | every curriculum holds exactly one record |
| Ects.EctsFound | app/services/ects_service.py:34-45 | a name that normalises to a listed curriculum is always found |
| Ects.EctsValuesReadBack | app/services/ects_service.py:42 | each credit of the answer reads back, with `int`, as the stored credit |
| Ects.KeysNormalized | app/services/ects_service.py:32 | no curriculum name contains `_S`, so each one normalises to itself |
| Ects.Normalize | app/services/ects_service.py:32 | `template_name.replace("_S", "")`; KeysNormalized and EctsFound state what it does to the table's names |
| Ects.EctsOfKey | app/services/ects_service.py:39-42 | looking a curriculum up by its own name gives its record, each credit as its decimal string |
| Report.CellOr | app/api/endpoints/uploads.py:1170-1197 | `str(cell or default)` is the cell text, or the default for an empty cell |
| Report.UeOf | app/api/endpoints/uploads.py:732-753 | every course belongs to the UE whose range holds it |
| Report.Notes | app/api/endpoints/uploads.py:732-753 | the thirteen grades are the cells D, E, F, H, I, J, L, N to S, each read by the grade parser |
| Report.AnyBelow8Exists | app/api/endpoints/uploads.py:1705-1708 | the scan finds a grade below 8 exactly when there is one |
| Report.HasRsMeaning | app/api/endpoints/uploads.py:1705-1708 | the flag of UE `k` is set exactly when one of its present grades is below 8 |
| Report.UeStates | app/api/endpoints/uploads.py:1712-1724 | the states of UE `k`'s courses, in order, with the flag of the UE |
| Report.AdjustedCredits | app/api/endpoints/uploads.py:2041-2042 | each course keeps `adjust_ects` of its grade and credits |
| Report.KeptCreditsWithinNominal | app/api/endpoints/uploads.py:2041-2042 | with non-negative credits, every course keeps between none and all of its credits |
| Report.UeEarnedBounded | app/api/endpoints/uploads.py:2045-2048 | every `ECTSUE<k>` is an integer between 0 and the UE's nominal credits |
| Report.YearEarnedIsTotal | app/api/endpoints/uploads.py:2188 | `moyenneECTS` is the sum of the credits kept by all thirteen courses |
| Report.NominalTotalIsSum | app/api/endpoints/uploads.py:1136 | `moyenne_ects` is the sum of the thirteen course credits |
| Report.YearEarnedBounded | app/api/endpoints/uploads.py:2188 | `moyenneECTS` lies between 0 and the nominal total |
| Report.RowEarnedBounded | app/api/endpoints/uploads.py:2039-2048 | with non-negative credits, a row's `moyenneECTS` lies between 0 and `moyenne_ects` |
| Report.BlankCourseEarnsNothing | app/api/endpoints/uploads.py:2032-2034 | a course whose cell is blank keeps no credit |
| Report.GradedCourseCredits | app/api/endpoints/uploads.py:2032-2034 | a course averaging `x` keeps its credits exactly when `x` rounds to 8 or more |
| Report.EtatRetake | app/api/endpoints/uploads.py:203-204 | a course is `R` exactly when it has a present grade below 8 |
| Report.NoRetake | app/api/endpoints/uploads.py:229 | the states hold no `R` exactly when no grade is below 8 |
| Report.UeEtatValidated | app/api/endpoints/uploads.py:1898-1904 | UE `k` is validated exactly when none of its grades is below 8 and its average is at least 10 |
| Report.StatesValidated | app/api/endpoints/uploads.py:1898-1904 | the states of a run of courses validate the UE exactly when no grade is below 8 and the average is at least 10 |
| Report.UeValidatedCourse | app/api/endpoints/uploads.py:1898-1904 | in a validated UE no course is below 8, and the average is at least 10 |
| Report.YearValidatedCourses | app/api/endpoints/uploads.py:2011-2016 | in a validated year no course is below 8, and every UE average is at least 10 |
| Report.UeAverageReadsBack | app/api/endpoints/uploads.py:1152-1155 | every UE average reads back with `float(moy or 0)`, an empty one as 0 |
| Report.RowAverageWeighted | app/api/endpoints/uploads.py:1141-1157 | with credits, the overall average is the UE averages weighted by nominal UE credits, a missing one counting as 0 |
| Report.RowAverageBlank | app/api/endpoints/uploads.py:1141-1161 | with non-negative credits, the overall average is `""` exactly when the nominal total is 0 |
| Report.ReportKeysInRange | app/api/endpoints/uploads.py:1169-1206 | with thirteen credit slots or more, `student_data` holds every numbered placeholder in range and nothing else |
| Report.LiteralDisjoint | app/api/endpoints/uploads.py:1169-1203 | the parts of the `student_data` literal share no key |
| Report.InitialDisjoint | app/api/endpoints/uploads.py:1169-1206 | the literal, `ue_matieres` and `ects_data` share no key |
| Report.StagedDisjoint | app/api/endpoints/uploads.py:1894 | the first `student_data`, `etats` and `etats_ue` share no key |
| Report.MergeKeeps | app/api/endpoints/uploads.py:1894 | `update` with disjoint keys keeps every earlier entry |
| Report.MergeRecomputed | app/api/endpoints/uploads.py:2041-2048 | the credit stage keeps every entry but the course, UE and year credits |
| Report.EtatList | app/api/endpoints/uploads.py:1900-1903 | `[etats[f"etat{i}"] for i in range(lo + 1, hi + 1)]` |
| Report.RowCells | app/api/endpoints/uploads.py:1170-1197 | the identity and absence placeholders hold the row's cells, with `0h0m` and `" "` for empty cells |
| Report.Results | app/api/endpoints/uploads.py:1185-1198 | the UE averages, the overall average and the date |
| Report.NominalCredits | app/api/endpoints/uploads.py:1199-1203 | `ECTSUE1` to `ECTSUE4` and `moyenneECTS` hold the nominal credits |
| Report.NoteFields | app/api/endpoints/uploads.py:1172-1184 | the thirteen `note<i>` entries |
| Report.UeMatieres | app/api/endpoints/uploads.py:361-380 | the four UE titles and thirteen course names of row 1 |
| Report.EctsFields | app/api/endpoints/uploads.py:1205 | `ECTS<i>` holds the `i`-th credit of the record |
| Report.Literal | app/api/endpoints/uploads.py:1169-1203 | the keys written one by one in the literal, with their values |
| Report.InitialData | app/api/endpoints/uploads.py:1169-1206 | the whole literal, ending with `**ue_matieres` and `**ects_data` |
| Report.FillStates | app/api/endpoints/uploads.py:1712-1724 | one loop sets `etat<i>` for its courses and changes nothing else |
| Report.CourseStates | app/api/endpoints/uploads.py:1703-1724 | every course gets `get_etat` of its grade with the flag of its UE |
| Report.EtatListIsStateList | app/api/endpoints/uploads.py:1900-1903 | the states read back for UE `k` are the states of its grades |
| Report.UeStatesOf | app/api/endpoints/uploads.py:1898-2016 | `etatUE<k>` from the UE's course states and average, and `totaletat` from the four |
| Report.KeptCredits | app/api/endpoints/uploads.py:2041-2042 | `ECTS<i>` is recomputed as `adjust_ects(note<i>, ECTS<i>)` for the thirteen courses |
| Report.CreditListIsAdjustList | app/api/endpoints/uploads.py:2045-2048 | the kept credits read back for a UE are the ones `adjust_ects` keeps |
| Report.EarnedCredits | app/api/endpoints/uploads.py:2045-2048 | `ECTSUE<k>` is the sum of the UE's kept credits (UE 3 copies `ECTS7`) and `moyenneECTS` is the sum of the four |
| Report.CreditsOf | app/api/endpoints/uploads.py:2039-2048 | the credit stage: kept course credits, then UE and year credits |
| Report.WithStates | app/api/endpoints/uploads.py:1169-2016 | the literal, then `update(etats)`, then `update(etats_ue)` with `totaletat` |
| Report.Assemble | app/api/endpoints/uploads.py:1169-2188 | every stage of `student_data` in order, each key holding its last value |
| Report.StudentData | app/api/endpoints/uploads.py:732-2188 | one row's `student_data`: the placeholders in range, with grades, averages, states and credits as the report card defines them |
| Report.StatesMeaning | app/api/endpoints/uploads.py:1703-2016 | the states written are those of `get_etat`, `get_etat_ue` and `get_total_etat` on the row |
| Report.CreditsMeaning | app/api/endpoints/uploads.py:2039-2188 | the credits written are the adjusted credits and their UE and year sums |
| Layouts.ModelsWellFormed | app/api/endpoints/uploads.py:1050-1134 | every layout's credit ranges chain from slot 1 to its last required slot |
| Layouts.ModelOfFileName | app/api/endpoints/uploads.py:634-717 | each layout's document name designates that layout |
| Layouts.TpFileNames | app/api/endpoints/uploads.py:670-705 | the full-time layouts' names designate them |
| Layouts.ModelOf | app/api/endpoints/uploads.py:634-717 | the `if`/`elif` chain on the template name; ModelOfFileName and TpFileNames state which name selects which layout |
| Layouts.ColumnsMatchSlots | app/api/endpoints/uploads.py:732-1033 | a UE reads as many grade columns as it has credit slots, except UE 4 of ALT-S6 |
| Layouts.AltS6LastUeMismatch | app/api/endpoints/uploads.py:1084 | UE 4 of ALT-S6 reads five grade columns but adds up six credit slots |
| Layouts.AltS1IsReportLayout | app/api/endpoints/uploads.py:732-753 | the ALT-S1 layout data agrees with the columns and UE ranges of the per-student model |
| Layouts.RequiredSlots | app/api/endpoints/uploads.py:635 | `[f"ECTS{i}" for i in range(1, n + 1)]` |
| Layouts.CheckPasses | app/api/endpoints/uploads.py:634-721 | the check passes exactly when every required slot is in the record |
| Layouts.CheckNamesMissing | app/api/endpoints/uploads.py:720-721 | a failed check names the layout and lists exactly the missing slots, in order |
| Layouts.SlotsHeld | app/api/endpoints/uploads.py:636 | `ECTS1` to `ECTS<n>` are in a `k`-slot record exactly when `n <= k` |
| Layouts.CheckOfRecord | app/api/endpoints/uploads.py:634-721 | on a curriculum's record, a layout's check passes exactly when the record has enough slots |
| Layouts.CheckRequiredEcts | app/api/endpoints/uploads.py:634-721 | the required-credit check, specified by CheckPasses, CheckNamesMissing and CheckOfRecord |
| Layouts.TpS5RecordShort | app/api/endpoints/uploads.py:694-697 | `BG_TP_5` holds 19 slots, fewer than the 20 the TP-S5 layout requires |
| Layouts.ChainTotalSlots | app/api/endpoints/uploads.py:1050-1134 | the credits of a chain of ranges are the credits of the slots they cover |
| Layouts.NominalUes | app/api/endpoints/uploads.py:1050-1134 | one nominal credit per UE range |
| Layouts.ChainTotalByRange | app/api/endpoints/uploads.py:1136-1138 | the credits of a four- or five-range chain, range by range |
| Layouts.MoyenneEctsAllSlots | app/api/endpoints/uploads.py:1136-1138 | `moyenne_ects` is the sum of every required slot, each read once |
| Absences.Append | app/services/absences_service.py:23-28 | appending adds exactly one duration to the three lists |
| Absences.ProcessAbsences | app/services/absences_service.py:4-30 | the keys are exactly the truthy codes met, each entry holding that learner's durations in the list its flags choose, in input order |
| Absences.NoneBefore | app/services/absences_service.py:16-21 | a learner first met starts with three empty lists |
| Absences.CodesStep | app/services/absences_service.py:7-10 | one more record adds its code when it is truthy |
| Absences.OneListEach | app/services/absences_service.py:23-28 | each kept record lands in exactly one list |
| Absences.TotalCount | app/services/absences_service.py:7-28 | the durations of all learners together are as many as the kept records |
| Absences.DelayFirst | app/services/absences_service.py:23-26 | a record flagged both as a delay and as justified counts as a delay |
| Absences.NoCodeSkipped | app/services/absences_service.py:8-10 | a record without a truthy code changes nothing |
| Absences.BucketsOf | app/services/absences_service.py:4-30 | what `process_absences` holds for one learner, specified by ProcessAbsences, OneListEach, TotalCount and DelayFirst |
| Minutes.GuardChangesNothing | app/utils/utils.py:3-7 | the general formula already writes 0 as `0h0m`, so the guard changes nothing |
| Minutes.WrittenParts | app/utils/utils.py:5-7 | the text is the hours, `h`, the minutes below 60 and `m`, for the only split that adds up to the total |
| Minutes.DivisionUnique | app/utils/utils.py:5-6 | `m // 60` and `m % 60` are the only hours and remainder below 60 that make up `m` |
| Minutes.ReadWritten | app/utils/utils.py:7 | reading `<h>h<r>m` back gives `h * 60 + r` |
| Minutes.HoursAndMinutesRoundTrip | app/utils/utils.py:1-7 | reading the written text back gives the number of minutes, and `None` reads back as 0 |
| Minutes.HoursAndMinutesInjective | app/utils/utils.py:1-7 | different numbers of minutes are written differently |
| Minutes.HoursAndMinutes | app/utils/utils.py:1-7 | `convert_minutes_to_hours_and_minutes`; WrittenParts, HoursAndMinutesRoundTrip and HoursAndMinutesInjective state its meaning |
| Sheets.TpS1FileName | app/services/excel_service.py:49 | the first full-time template is `BG-TP-S1.xlsx` |
| Sheets.AllListed | app/services/excel_service.py:48-99 | the configuration lists every one of the twelve templates |
| Sheets.FileNameInjective | app/services/excel_service.py:48-99 | different templates have different file names |
| Sheets.Search | app/services/excel_service.py:102 | the template found has the name looked up; none is found only when no template has it |
| Sheets.NamedFileName | app/services/excel_service.py:102-104 | a template's file name finds it, and only template file names find one |
| Sheets.Pairs | app/services/excel_service.py:112 | `zip(source_columns, target_columns)` pairs up to the shorter list |
| Sheets.KeptRow | app/services/excel_service.py:118-134 | a row gives its value when the cell holds one (None is skipped, "" is copied) and it is not a footer, and nothing otherwise |
| Sheets.KeptFromColumn | app/services/excel_service.py:114-134 | every copied value is a non-footer value of the column from a row of the range |
| Sheets.KeptWhole | app/services/excel_service.py:114-134 | when every cell of the range holds a value and none is a footer, the column is copied whole, row for row |
| Sheets.WriteColumnAt | app/services/excel_service.py:116-134 | the `i`-th value written lands `i` rows below the first |
| Sheets.WriteColumnElsewhere | app/services/excel_service.py:116-132 | writing a column leaves every other cell unchanged |
| Sheets.CopiedAt | app/services/excel_service.py:112-134 | with distinct targets, the `i`-th kept value of a source column ends `i` rows below row 3 of its target column |
| Sheets.CopiedElsewhere | app/services/excel_service.py:112-134 | the copy writes only target columns from row 3 down; every other cell is unchanged |
| Sheets.Copied | app/services/excel_service.py:112-134 | the template after the column pairs are copied in turn; CopiedAt and CopiedElsewhere state where each value lands and that nothing else changes |
| Sheets.LeftToRightDistinct | app/services/excel_service.py:48-99 | columns listed from left to right are all different |
| Sheets.TargetsLeftToRight | app/services/excel_service.py:48-99 | every configuration lists its target columns from left to right |
| Sheets.TargetsDistinct | app/services/excel_service.py:48-99 | every configuration lists each target column once |
| Sheets.TpS3Pairs | app/services/excel_service.py:57-60 | BG-TP-S3 lists 19 source and 15 target columns, so 15 pairs are copied |
| Sheets.Worksheet.Write | app/services/excel_service.py:132 | `ws[cell] = value` changes only that cell |
| Sheets.CopyColumn | app/services/excel_service.py:113-134 | one pair: the kept source values from row 6 go to the target column from row 3, without gaps |
| Sheets.CopyPairs | app/services/excel_service.py:112-134 | the pairs are copied one after the other |
| Sheets.CopyMultipleCells | app/services/excel_service.py:101-134 | an error and no change without a configuration; otherwise each column pair copied in turn |
| Sheets.HeadersEqual | app/services/excel_service.py:597-603 | comparing the header lists is comparing the cells one by one |
| Sheets.MatchTemplateCells | app/services/excel_service.py:610-625 | ALT-S3 exactly when C1..S1 match; ALT-S2 exactly when they do not but C1..U1 match the ALT-S2 template; the error otherwise |
| Sheets.MatchTemplate | app/services/excel_service.py:568-625 | the choice of `match_template_and_get_word`, specified by MatchTemplateCells, SecondOnlyWhenTemplatesDiffer, ChosenEctsFound and ChosenNotLaidOut |
| Sheets.HeaderColumnsShared | app/services/excel_service.py:580-584 | the cells compared for ALT-S3 are the first 17 of those compared for ALT-S2 |
| Sheets.SecondOnlyWhenTemplatesDiffer | app/services/excel_service.py:610-622 | ALT-S2 is chosen only when the two templates themselves differ in C1..S1 |
| Sheets.ChosenEctsFound | app/services/excel_service.py:616-622 | the credit curriculum of either choice is in the credit table |
| Sheets.ChosenNotLaidOut | app/services/excel_service.py:615-621 | neither chosen document name is one of the 2024-2025 layouts the report generation knows |
| Fill.SummarizeAbsences | app/services/excel_service.py:294-309 | one entry per learner code of the input, holding that code's last list sorted into three lists |
| Fill.KeysStep | app/services/excel_service.py:295-296 | one more input entry adds its code |
| Fill.SortedOneListEach | app/services/excel_service.py:302-309 | each record lands in exactly one list |
| Fill.PrecedenceDiffers | app/services/excel_service.py:304-307 | the fill and the absence service sort a record differently exactly when it is flagged both justified and a delay |
| Fill.SortedAsService | app/services/excel_service.py:302-309 | for records not flagged twice, the fill's lists are the absence service's |
| Fill.JustifiedFirst | app/services/excel_service.py:304-305 | a record flagged both justified and a delay goes to the justified list |
| Fill.GroupesMappingKeys | app/services/excel_service.py:313-321 | the codes are exactly those of the listed groups |
| Fill.GroupesMappingLast | app/services/excel_service.py:313-321 | a code maps to the fields of the last listed group with that code |
| Fill.GroupValue | app/services/excel_service.py:313-321 | every value is the fields of a listed group |
| Fill.GroupesMapping | app/services/excel_service.py:313-321 | `groupes_mapping`, specified by GroupesMappingKeys, GroupesMappingLast and GroupValue |
| Fill.FrequentationMappingLast | app/services/excel_service.py:324-328 | a learner code maps to the group code of its last attendance record |
| Fill.FrequentationMappingAbsent | app/services/excel_service.py:324-328 | a learner without an attendance record is not in the mapping |
| Fill.GroupOfCases | app/services/excel_service.py:336-342 | a learner's fields are those of the group its attendance names, or empty fields when that group is unknown or it has no attendance record |
| Fill.GroupListedOrNone | app/services/excel_service.py:336-342 | a learner's group is a listed group or the empty fields |
| Fill.GroupOf | app/services/excel_service.py:336-342 | the group fields of a learner, specified by GroupOfCases and GroupListedOrNone |
| Fill.LearnerOf | app/services/excel_service.py:332-344 | one entry of `apprenant_mapping` or the error it raises; ApprenantMappingOk and NameKeyNormalized state its meaning |
| Fill.ApprenantMappingOk | app/services/excel_service.py:331-345 | the mapping is built exactly when every entry can be computed; otherwise the message of a failing entry |
| Fill.ApprenantMappingKeys | app/services/excel_service.py:331-345 | the keys are the `NOM PRENOM` keys of the listed learners |
| Fill.ApprenantMappingLast | app/services/excel_service.py:331-345 | a key maps to the last listed learner with that key |
| Fill.ApprenantMapping | app/services/excel_service.py:331-345 | `apprenant_mapping`, specified by ApprenantMappingOk, ApprenantMappingKeys and ApprenantMappingLast |
| Fill.NameKeyNormalized | app/services/excel_service.py:332 | the key ignores surrounding blanks and letter case |
| Fill.UpperStripFixed | app/services/excel_service.py:332 | stripping and upper-casing twice is doing it once |
| Fill.UpperKeepsSpace | app/services/excel_service.py:332 | `upper` neither changes nor creates whitespace |
| Fill.UpperIdempotent | app/services/excel_service.py:332 | `upper` twice is `upper` once |
| Fill.CheckConfigMeaning | app/services/excel_service.py:502-506 | the check fails exactly when a required key is absent, and its message lists exactly the absent keys |
| Fill.FillConfigComplete | app/services/excel_service.py:348-506 | a fill configuration exists for exactly the templates that have a copy configuration, and each one passes the check |
| Fill.PrepareOutcome | app/services/excel_service.py:294-565 | preparation succeeds exactly when every learner entry can be computed and a configuration exists; errors are wrapped with the fill's message |
| Fill.Prepare | app/services/excel_service.py:294-565 | the steps of the fill before its loop over the rows, specified by PrepareOutcome |
| Templates.GetTemplateFileNameMeaning | app/core/template_mapping.py:78-80 | a listed group gets its template's file name, one of the twelve templates; an unlisted group gets the error naming it |
| Templates.GetTemplateFileName | app/core/template_mapping.py:78-80 | `TEMPLATE_MAPPING.get(group_name)` or the `ValueError`, specified by GetTemplateFileNameMeaning and FirstSemesterSites |
| Templates.GroupTemplateConfigured | app/core/template_mapping.py:6-72 | every mapped template has a copy configuration and a fill configuration that holds every required key |
| Templates.FirstSemesterSites | app/core/template_mapping.py:8-13 | each of the six campus variants of the first full-time semester, the late intake of site P included, gets `BG-TP-S1.xlsx` |

## Left out

- Network and file I/O: downloads, openpyxl loading and saving, the Prisma database, and reading appreciations from the Word table. The workbooks and Yparéo lists are parameters.
- HTTP routing, temporary-directory cleanup, the python-docx placeholder substitution and styling, and `word_service.py`.
- The date of the day is a parameter: it comes from the clock.
- Cell values are text. `str()` of a numeric cell value and the `or ''` of a numeric 0 are not modelled.
- Floating point: grades are exact reals. `float` accepts no exponent, `inf`, `nan` or underscore, and `int` accepts no underscore either (Python reads `int("1_0")` as 10, the model gives `None`). `round` and `:.2f` are exact half-to-even rounding, not binary floating-point rounding.
- `int(absence.get("duree", 0))` on text that does not convert raises in Python. The model reads durations as integers already.
- `upper` changes ASCII letters only.
- Decimal.ParseFloat and Text.ParseInt read ASCII digits only. Python's `float` and `int` also accept other Unicode decimal digits (Arabic-Indic or full-width ones, say), where the model gives `None`.
- The Yparéo dictionaries are records with optional fields. A list item that is not a dictionary is the `NotDict` case.
- The fill's key `str(code_apprenant)` can merge two codes that print the same. The model keys entries by text and lets the last entry win.
- Fill.GroupOfCases: a learner without an attendance record gets the group whose code is the empty string when such a group exists. The empty fields are stated only when no group has the empty code.
- The fill's row loop over the template (lines 518-556 of `app/services/excel_service.py`), which writes the prepared values into the sheet, is not modelled. The values it writes are what the model prepares.
- openpyxl upper-cases a column letter. The ALT-S5 fill configuration names the site column `"v"`, and the model keeps it as written.
- Sheets.ColumnNumber reads column names of one or two letters only, which are all the configurations use.
- `compare_group_code_types` (a logging diagnostic) and `process_excel_with_template` (database and download orchestration).
- The database half of `get_template_id_from_group_name`, lines 83-93 of `app/core/template_mapping.py`.
- The per-student aggregation covers `modeleBG-ALT-S1-2024-2025.docx` only. The other layouts are modelled as static data: columns, credit ranges and the required-credit check. The reason is that their branches fail at run time:
  - `get_total_etat` is called with two or three arguments;
  - `moyUE1`..`moyUE4` are set only for ALT-S1;
  - `moyUESPE` is never set;
  - layouts with fewer than four UEs read missing `ECTSUE2`..`ECTSUE4`.
- Report.StudentData: the skip of a row whose column B is empty (line 728 of `app/api/endpoints/uploads.py`) is left to the caller.
- Sheets.MatchTemplate: the names it returns (`modeleBGALT3.docx`, `modeleBGALT2.docx`) are not among the layouts the report generation knows. Sheets.ChosenNotLaidOut states this. What the endpoint then does with them is not modelled.
- Layouts.AltS6LastUeMismatch and Layouts.TpS5RecordShort record inconsistencies in the layout data. Nothing is corrected.
- Every credit in `ECTS_DATA` is a non-negative integer by the type of the table (`nat`). The table is a constant, so the lookup cannot change it.

## Findings

| source | as written | input that shows it | evidently intended | confidence | as-written member | corrected member |
|---|---|---|---|---|---|---|
| app/api/endpoints/uploads.py:261-271 | the `return total_ects` sits inside the `for` loop, so `calculate_ue_ects` returns the credits of the first pair that converts, or `None` when no pair converts | grades `"12.00"`, `"9.00"` with credits `"3"`, `"2"` give 3 | the sum of the credits of every pair whose grade is at least 8 (5 here), as the comment on line 260 describes | not executed | Grades.UeEctsStopsAtFirstPair | Grades.UeEctsTotalBounded |

`calculate_ue_ects` is not called elsewhere in the repository. Grades.CalculateUeEcts models the loop as written. Grades.CalculateUeEctsTotal is the corrected loop. Grades.UeEctsTotalBounded and Grades.UeEctsTotalAppend are proved about the corrected definition.
