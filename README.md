# Institute management: business-rule core in Dafny

This project models the business rules of a small institute-management
web application. The application is a Flask server over MongoDB. It keeps
a daybook of vouchers, pays teachers by the hour, issues GST receipts for
fee payments and numbers its students. The model covers the following:

- **Vouchers** (`Vouchers`). The payload check runs first: a date, and at least one line with an account and a positive amount.
  - Then come the debit and credit totals.
  - Then the automatic offsetting line of a contra voucher that has a single positive line. It goes to Bank or Cash depending on the account name.
  - Then the balance rule shared by `create_voucher` and `update_voucher`. A difference above 0.009 is refused unless `allow_unbalanced` is set.
  - `auto_allocate_contra` appends to the caller's list in place. It is a module-level method that takes a `LineList` object and updates it, proved against the `AutoAllocated` function.
- **GST** (`Gst`). `calc_gst` returns the tax rounded to paise and the total rounded to paise.
- **Counters and receipts** (`Counters`).
  - `get_next_sequence` is a `$inc` upsert on a named counter. It is modelled as a `CounterStore` class holding a map from counter name to value.
  - A receipt number is the "receipt_no" counter value zero-padded to six digits.
- **Teacher salary, hours mode** (`Salary`, `Calendar`).
  - The request's validations, in the order the code applies them.
  - Parsing of `YYYY-MM`.
  - `month_date_range`, modelled over a model of Python's `datetime`.
  - Hourly-rate precedence: a non-blank override, else the teacher's rate, else 0.
  - Manual hours or the month's logged hours, and the amount `round(hours * rate, 2)`.
  - The salaries store, keyed by (teacher, year, month, mode), which both salary modes upsert into. It is a `SalaryStore` class over a map.
- **Student-id backfill** (`Backfill`). This is the migration script's loop, which draws each missing `student_id` from the "student_id" counter. It also covers the variant in app.py, which numbers upwards from one past the highest id present. Both loops are methods over a `StudentCollection` object, proved against the `Backfilled` function.
- **Supporting modules** (`Text`, `Money`). `Text` holds the Python string operations these rules rely on: `str`, `int`, `float`, `zfill`, `split`, `strip`, `lower` and `in`. `Money` holds Python's `round(x, 2)`.

Money amounts are exact `real`s. `round(x, 2)` rounds the exact value to the nearest paisa. Python's `round` sends exact ties to the even paisa, not upwards; `Money.RoundTiesToEven` shows 0.125 going to 0.12.

The source holds several copies of some helpers. The model follows the copies that take effect: `validate_voucher_payload`, `compute_totals` and `auto_allocate_contra` at app.py:5375-5399, and `month_date_range` at app.py:4370-4382.

## Model

| member | source | states |
|---|---|---|
| Text.DecimalStringValue | app.py:3842 | `str(n)` of a non-negative integer reads back as `n` |
| Text.ZFill | app.py:3842 | `zfill(w)` pads with '0' on the left up to `w` characters, keeps a leading sign in front of the zeros, and never shortens a string already `w` long |
| Text.ZFillDigitsValue | app.py:3842 | zero-padding a digit string keeps it all digits and keeps its value |
| Text.Split | app.py:4446 | `split('-')` returns at least one part and no part contains the separator |
| Text.JoinSplit | app.py:4446 | joining the parts of a split with the separator restores the string |
| Text.SplitJoin | app.py:4446 | splitting parts joined by a separator they do not contain gives the same parts back |
| Text.StripLeft | app.py:4481 | removes exactly the leading whitespace run: `str.isspace` characters for `strip()`, or, for a numeral, the narrower set `int()` and `float()` skip |
| Text.StripRight | app.py:4481 | removes exactly the trailing whitespace run, of the same two kinds |
| Text.Strip | app.py:4481 | `strip()` is no longer than its input and has no whitespace at either end, whitespace being what `str.isspace` accepts (0x09-0x0D, 0x1C-0x20, 0x85, 0xA0 and the Unicode spaces and separators) |
| Text.StripBlank | app.py:4481 | `s.strip() != ""` fails exactly when every character of `s` is whitespace |
| Text.StripIdempotent | app.py:4491 | stripping twice gives the same as stripping once |
| Text.NumberStrip | app.py:4446 | the numeral `int()` and `float()` read has none of the whitespace they skip at either end: 0x09-0x0D, 0x20 and the non-ASCII `str.isspace` characters, but not 0x1C-0x1F |
| Text.ParseInt | app.py:4446 | `int()` yields a value exactly when the input without that surrounding whitespace (`NumberStrip`), less one leading '+' or '-', is a non-empty run of ASCII digits; the value is the number those digits denote, negated after a '-'; so a digit string so surrounded reads as its number and a negative value needs a leading '-' |
| Text.UnsignedDecimal | app.py:4482-4484 | a numeral split at '.' is read exactly when it is one non-empty digit run, or two digit runs not both empty; its value is the whole digits' number plus the fraction digits' value, never negative |
| Text.ParseDecimal | app.py:4482-4484 | `float()` yields a value exactly when the input without the whitespace it skips (`NumberStrip`), less one leading '+' or '-', splits at '.' into a numeral `UnsignedDecimal` reads (digits with at most one '.', at least one digit); the value is that reading, negated after a '-'; a value needs non-blank input, and a negative one a leading '-' |
| Text.SeparatorIsNotNumberSpace | app.py:4491-4493 | 0x1C in front of digits counts as whitespace for `strip()`, which drops it, but `int()` and `float()` refuse the string; a tab in its place is skipped and the digits read as their number |
| Text.FractionValueIsQuotient | app.py:4482-4484 | fraction digits `d1…dk` are worth the number `d1…dk` over 10^k |
| Text.ParseDecimalOfDigits | app.py:4493 | `float()` reads a non-empty digit string as the integer it denotes |
| Text.ParseDecimalOfParts | app.py:4493 | `float("a.b")` for non-empty digit runs `a` and `b` is `a`'s number plus the fraction value of `b` |
| Text.PaddedFractionValue | app.py:4493 | `f` written as `k` zero-padded fraction digits (the "05" of "7.05") is worth f / 10^k |
| Text.ParsePaddedDecimal | app.py:4446 | `int()` reads a zero-padded decimal numeral as its number |
| Text.ParseDecimalOfInteger | app.py:4493 | `float(str(n))` is `n` |
| Text.Lower | app.py:5396 | `lower()` maps every character through the ASCII lower-case map and keeps the length |
| Text.ContainsAt | app.py:5396 | `"bank" in s` holds exactly when some slice of `s` equals "bank" |
| Money.Round2 | utils.py:15-16 | `round(x, 2)` is a whole number of paise within half a paisa of `x` |
| Money.RoundCents | utils.py:15-16 | rounding leaves a whole-paise amount unchanged |
| Money.RoundMonotone | utils.py:15-16 | rounding preserves order |
| Money.RoundTiesToEven | utils.py:15-16 | exact ties go to the even paisa (0.125 to 0.12, 0.135 to 0.14) |
| Gst.CalcGst | utils.py:14-17 | tax and total are whole paise; the tax is within half a paisa of amount × rate / 100 and the total within half a paisa of amount + tax |
| Gst.TotalIsAmountPlusGst | utils.py:14-17 | on a whole-paise amount the total is exactly amount + tax |
| Gst.GstNonNegative | utils.py:14-17 | non-negative inputs give a non-negative tax and a total of at least the rounded amount, and at least the amount itself when it is whole paise |
| Gst.NoTaxOnZero | utils.py:14-17 | a zero amount or a zero rate gives zero tax |
| Gst.GstExamples | utils.py:14-17 | 18% on 100 is (18, 118); 18% on 0 is (0, 0) |
| Counters.Advance | migrate_add_student_id_simple.py:10-17 | the `$inc` upsert creates a missing counter at 1 or adds 1 to it, and leaves every other counter unchanged |
| Counters.DrawsAreConsecutive | utils.py:4-12 | n calls from a counter at c return c+1, …, c+n in order, leave the counter at c+n and touch no other counter |
| Counters.FreshCounterCountsFromOne | utils.py:4-12 | a counter never used before returns 1, 2, …, n, with no value repeated |
| Counters.CounterStore.NextSequence | utils.py:4-12 | the named counter goes up by one and its new value is returned |
| Counters.CounterStore.NextReceiptNumber | app.py:3841-3842 | draws the next "receipt_no" value and returns it zero-padded to six digits |
| Counters.ReceiptNumber | app.py:3842 | `str(receipt_seq).zfill(6)` has at least six characters, and for a non-negative counter value they are all digits and denote that value |
| Counters.ReceiptNumberDigits | app.py:3842 | below a million the receipt number is exactly six digits denoting the counter value |
| Counters.ReceiptNumberInjective | app.py:3842 | distinct counter values never share a receipt number |
| Counters.SequentialReceiptsDistinct | app.py:3841-3842 | receipts drawn one after another have pairwise distinct numbers |
| Calendar.PreviousMicrosecond | app.py:4381 | subtracting one microsecond gives an earlier valid `datetime`, and fails only at the earliest one |
| Calendar.PreviousIsImmediate | app.py:4381 | no valid `datetime` lies strictly between a value and the one a microsecond earlier |
| Calendar.MonthDateRange | app.py:4370-4382 | succeeds exactly for years 1..9999 and months 1..12 other than December 9999; starts at midnight on the 1st and ends at 23:59:59.999999 on the month's last day |
| Calendar.OverflowingYearMessage | app.py:4375 | a year past the C `int` or C `long` range fails with the OverflowError of argument conversion, and year 10000 with "year 10000 is out of range" |
| Calendar.MonthRangeIsTheMonth | app.py:4370-4382 | a valid `datetime` lies in the inclusive range exactly when its year and month are the requested ones |
| Salary.ParseMonth | app.py:4444-4450 | accepted exactly when splitting on '-' gives two integers and the second is in 1..12, and then the result is exactly those two integers; any other input gives "Invalid month format. Use YYYY-MM." |
| Salary.FormatMonth | app.py:4600 | `f"{year}-{month:02d}"` is `str(year)`, a '-', and two digits that denote the month |
| Salary.MonthStringRoundTrip | app.py:4600 | the stored `month_str` parses back as the year and month it was made from |
| Salary.StoredRate | app.py:4484 | `float(teacher.get("hourly_rate") or 0.0)`: missing or empty gives 0, a float is itself, an int is its value, a boolean is 1 or 0, a readable string is what `float` reads, an unreadable string gives 0 (the `except`) |
| Salary.ResolveHourlyRate | app.py:4479-4486 | a non-blank override wins (an unreadable one gives 0); otherwise the teacher's stored rate as `StoredRate` reads it |
| Salary.HoursInRange | app.py:4509-4557 | the aggregated hours are non-negative when every logged entry is, and zero when no entry belongs to the teacher |
| Salary.RangeHoursAreMonthHours | app.py:4499-4557 | summing the teacher's hours over the range of `month_date_range` sums exactly the hours dated in that month |
| Salary.HoursAmount | app.py:4563 | the amount is whole paise within half a paisa of hours × rate |
| Salary.HoursAmountFacts | app.py:4563 | the amount is non-negative for non-negative inputs and exact when hours × rate is already whole paise |
| Salary.SalaryForMonth | app.py:4479-4563 | an unreadable non-blank `manual_hours` gives "Invalid manual_hours value"; an unrepresentable month range gives a server error; otherwise the result carries the teacher's id and name, the year, month and `month_str` of the request, the resolved rate, the hours are the manual figure exactly when one was given and otherwise the month's logged hours, and the amount is their rounded product |
| Salary.ComputeHoursSalary | app.py:4432-4477 | the errors come in the code's order: missing teacher id, missing month, bad month, unknown teacher; past them the result is the salary for the parsed month |
| Salary.ManualHoursReplaceLogged | app.py:4488-4496 | past the validations, a readable non-blank `manual_hours` is the salary's hours whatever attendance was logged, and the amount is those hours at the resolved rate, rounded |
| Salary.BlankManualUsesLogged | app.py:4498-4563 | past the validations, a blank `manual_hours` makes the hours the teacher's hours logged in the parsed month, and the amount those hours at the resolved rate, rounded |
| Salary.AggregatedHoursExample | app.py:4499-4563 | 10 logged hours at the teacher's rate of 200 come to 2000 |
| Salary.FiveHours | app.py:4491-4493 | "5" is a non-blank `manual_hours` that `float` reads as 5 |
| Salary.ManualHoursExample | app.py:4488-4496 | any non-blank manual entry that reads as 5 hours, "5" among them, replaces the 10 logged hours and gives 1000 |
| Salary.Upserted | app.py:4609-4611 | a `$set` upsert writes every given field under the key, keeps the record's other fields, creates a missing record from the key fields plus the given ones, and leaves other records alone |
| Salary.UpsertKeepsKeysConsistent | app.py:4609-4611 | saving fields that agree with their key keeps every record consistent with its key |
| Salary.SaveTwiceKeepsLatest | app.py:4609-4611 | saving twice under one key leaves what the second save wrote, when it writes every field the first did |
| Salary.HoursAndDaysCoexist | app.py:4727-4729 | an hours record and a days record for the same teacher and month are kept side by side |
| Salary.HoursDocument | app.py:4595-4607 | the saved hours document agrees with the key it is saved under |
| Salary.SalaryStore.Upsert | app.py:4609-4611 | the store becomes the upserted map and stays consistent with its keys |
| Salary.SalaryStore.GenerateHoursSalary | app.py:4584-4616 | the result is the computed salary; the store changes, by one upsert under (teacher, year, month, "hours"), exactly when the computation succeeded and saving was requested |
| Salary.SalaryStore.SaveDaysSalary | app.py:4700-4729 | the days figures are saved with their key fields under (teacher, year, month, "days") |
| Vouchers.AnyPostingLine | app.py:5379 | true exactly when some line has an account and a positive amount |
| Vouchers.ValidateVoucherPayload | app.py:5375-5381 | "date required" exactly when the date is empty; otherwise the no-posting-line message exactly when no line has an account and a positive amount; no error exactly when neither holds |
| Vouchers.SumOfKindAppend | app.py:5383-5386 | a total over two lists of lines is the sum of their totals |
| Vouchers.ComputeTotals | app.py:5383-5386 | no lines give (0, 0), and lines whose amounts are all non-negative give non-negative totals |
| Vouchers.SumOfKindNonNegative | app.py:5383-5386 | a total over non-negative amounts is non-negative |
| Vouchers.TotalsWithLine | app.py:5383-5386 | appending a line adds its amount to the debit total for a debit, to the credit total for a credit, and to neither otherwise |
| Vouchers.TotalsIgnoreLine | app.py:5383-5386 | a line of any other type, or one without an amount, changes neither total |
| Vouchers.PositiveLines | app.py:5392 | the filter keeps only lines of the list with a positive amount, and is empty exactly when no amount is positive |
| Vouchers.OnePositiveLine | app.py:5392-5393 | the filter has one element exactly when one line is positive, and that element is the line |
| Vouchers.CounterAccount | app.py:5396 | the offset goes to "Bank" exactly when the lower-cased account name has "bank" at some position, and to "Cash" otherwise |
| Vouchers.ContraLine | app.py:5393-5397 | the offsetting line has the counter account, the same amount, empty details, and type credit for a debit line and debit for any other |
| Vouchers.AutoAllocated | app.py:5388-5399 | the lines are kept as a prefix, with at most one line added |
| Vouchers.AutoAllocatedCases | app.py:5388-5399 | only a contra voucher with exactly one positive line changes; it gains one line with the same amount, the opposite type, empty details and account "Bank" exactly when the lower-cased account contains "bank", "Cash" otherwise |
| Vouchers.ContraBalances | app.py:5388-5399 | a contra voucher whose single positive line is a debit or credit, all others zero, balances exactly after the offset |
| Vouchers.ContraTypelessUnbalanced | app.py:5397 | a typeless single line is offset by a debit and the voucher stays debit-heavy by its amount |
| Vouchers.AutoAllocateContra | app.py:5388-5399 | the caller's list is changed in place to the allocated lines and the same list is returned |
| Vouchers.CheckVoucher | app.py:5541-5549 | a validation error exactly when validation fails; "not balanced" with both totals exactly when the allocated lines differ by more than 0.009 and unbalanced is not allowed; otherwise the allocated lines are accepted, balanced unless allowed |
| Vouchers.CreateVoucher | app.py:5539-5562 | accepted exactly when the rule accepts; stores the allocated lines and the date, with type defaulting to "journal" and number and narration defaulting to "" |
| Vouchers.UpdateVoucher | app.py:5564-5585 | accepted exactly when the rule accepts; stores the allocated lines, and the date, type, number and narration as sent |
| Vouchers.BalancedVoucherExample | app.py:5539-5562 | Cash 500 debit against Sales 500 credit is accepted |
| Vouchers.ContraVoucherExample | app.py:5539-5562 | a contra voucher with only Cash 500 debit is stored with an added Cash 500 credit line |
| Vouchers.UnbalancedVoucherExample | app.py:5546-5549 | Cash 500 debit against Sales 300 credit is refused, reporting 500 and 300 |
| Backfill.NoneMissing | migrate_add_student_id_simple.py:20 | the count of students without `student_id` is zero exactly when every student has one |
| Backfill.BackfillStudentIds | migrate_add_student_id_simple.py:19-27 | the documents become the backfill from the counter's old value; the count returned is the number that lacked an id; the counter is advanced by exactly that many draws |
| Backfill.BackfilledAt | migrate_add_student_id_simple.py:22-24 | a student that had an id keeps its document; one that lacked an id gets c+1 plus the number of earlier students that lacked one; `_id` never changes |
| Backfill.AllStudentsHaveIds | migrate_add_student_id_simple.py:20-24 | afterwards every student has a `student_id` and no student that had one is touched |
| Backfill.AssignedIdsAreConsecutive | migrate_add_student_id_simple.py:20-24 | the ids handed out are exactly c+1, …, c+k: each in range, no two equal, every value used |
| Backfill.CounterIdsMayCollide | migrate_add_student_id_simple.py:20-24 | a drawn id can equal one already present: a student holding id 1 and a fresh counter leave two students with id 1 |
| Backfill.MaxStudentId | app.py:4300-4304 | the highest `student_id` present: absent exactly when no student has one, otherwise no smaller than any and held by some student |
| Backfill.StartId | app.py:4304 | the first id handed out exceeds every id present |
| Backfill.BackfillFromMax | app.py:4298-4315 | the documents become the backfill numbered from `StartId`, and the count returned is the number that lacked an id |
| Backfill.FromMaxKeepsIdsDistinct | app.py:4298-4315 | when no two students shared an id before, none do afterwards, and every student has one |

## Left out

- HTTP handling, templates, sessions, logging and MongoDB connection handling are not modelled. A request becomes the operation's arguments; a response becomes its `Result`.
- A collection being unavailable, and the `Server configuration error` responses that follow from it, are left out.
- Identifier coercion is left out. Whether a teacher or voucher id is an `ObjectId` or a string, and the three attendance lookups tried in turn (by `ObjectId`, by string, by scan), all become one sum over entries whose teacher id equals the posted id.
- The faculty lookup by `_id` or by name is not modelled; the teacher it finds is a parameter.
- Clocks are left out: `created_at`, `updated_at` and `generated_on` carry `datetime.utcnow()` and are not part of the stored documents here.
- Money.Round2: models `round` on the exact decimal value, not on IEEE-754 doubles. Where a double's binary value lies just off a tie, Python may round the other way.
- Gst.CalcGst: the configured `GST_PERCENT` is a parameter. The configuration file is not part of this model.
- Text.ParseInt: accepts whitespace, a sign and ASCII decimal digits only. Python's `int()` also accepts underscores between digits and Unicode digits. The model reads numerals of any length, while from Python 3.11 on `int()` refuses a string of more than 4300 digits with a ValueError.
- Text.ParseDecimal: accepts plain decimals in ASCII digits only. Python's `float()` also accepts exponents, `inf`, `nan`, underscores between digits and Unicode decimal digits such as "٥".
- Text.Lower: lower-cases ASCII letters only. Python lower-cases all of Unicode.
- Vouchers.CheckVoucher: compares the exact totals against 0.009, where Python compares IEEE-754 doubles. At the edge the two differ: a debit of 100.009 against a credit of 100.0 is accepted here, while the difference of the doubles is 0.009000000000000341 and Python refuses it.
- Vouchers.Line: a line's `amount` is a number or absent. Amounts sent as JSON strings (which `float` would parse) are not modelled.
- Vouchers.CreateVoucher: a `type` sent explicitly as JSON null is treated like a missing one.
- Vouchers.UpdateVoucher: the id in the URL is not modelled. A malformed id gives 404 before any validation (app.py:5566-5568). An id no voucher has makes `find_one` return `None`, and the code then fails with a 500 instead of a 404 (app.py:5585-5586). The model covers only an update of an existing voucher.
- Salary.SalaryStore.SaveDaysSalary: the days-mode figures (collection, deductions, incentive, TDS and so on) are computed by the browser and stored unchanged. They are a parameter here, not recomputed. Its request validation repeats the month parsing already modelled.
- Backfill.BackfillFromMax: walks the students in their stored order, which stands for the `_id` order the code sorts by. It assumes the stored ids are integers, as `int(max_doc["student_id"])` does.
- Backfill.BackfillStudentIds: a student whose `student_id` is stored as null counts as having one (`$exists` is true), and is modelled as having one. The update is made by position in the collection, which stands for the update by the unique `_id`.
- Concurrency is left out: two backfills or two counter draws interleaving, and a write failing midway.
- The `print` output of both backfill scripts is left out.
