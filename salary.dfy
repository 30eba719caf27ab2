/**
 * Hours-mode teacher salary (`salary_generate`): month parsing, the hourly
 * rate and hours it uses, the amount, and the salary store keyed by
 * (teacher, year, month, mode) that both salary modes upsert into.
 */
module Salary {
  import opened Wrappers
  import opened Text
  import opened Money
  import opened Calendar

  const MissingTeacherId: string := "Missing teacher_id"
  const MissingMonth: string := "Missing month (YYYY-MM)"
  const InvalidMonthFormat: string := "Invalid month format. Use YYYY-MM."
  const TeacherNotFound: string := "Teacher not found in faculties collection"
  const InvalidManualHours: string := "Invalid manual_hours value"
  const ServerErrorPrefix: string := "Server error: "

  /**
   * `year, month = map(int, month_str.split('-'))` followed by the check
   * that the month lies in 1..12.
   */
  function ParseMonth(s: string): (r: Result<(int, int), string>)
    ensures r.Failure? ==> r.error == InvalidMonthFormat
    ensures r.Success? ==> 1 <= r.value.1 <= 12
    ensures r.Success? <==>
      var parts := Split(s, '-');
      |parts| == 2 && ParseInt(parts[0]).Some? && ParseInt(parts[1]).Some? && 1 <= ParseInt(parts[1]).value <= 12
    ensures r.Success? ==> r.value == (ParseInt(Split(s, '-')[0]).value, ParseInt(Split(s, '-')[1]).value)
  {
    var parts := Split(s, '-');
    if |parts| != 2 then Failure(InvalidMonthFormat)
    else
      match (ParseInt(parts[0]), ParseInt(parts[1]))
      case (Some(year), Some(month)) =>
        if month < 1 || month > 12 then Failure(InvalidMonthFormat) else Success((year, month))
      case _ => Failure(InvalidMonthFormat)
  }

  /** `f"{year}-{month:02d}"`, the `month_str` stored with a salary. */
  function FormatMonth(year: int, month: int): (r: string)
    ensures 1 <= month <= 12 ==>
      var n := |IntString(year)|;
      && |r| == n + 3 && r[..n] == IntString(year) && r[n] == '-'
      && AllDigits(r[n + 1..]) && DigitsValue(r[n + 1..]) == month
  {
    if 1 <= month <= 12 then
      ZFillDigitsValue(DecimalString(month), 2);
      DecimalStringValue(month);
      assert |DecimalString(month)| <= 2 by {
        if month >= 10 { assert DecimalString(month) == DecimalString(1) + [DigitChar(month % 10)]; }
      }
      var r := IntString(year) + "-" + ZFill(IntString(month), 2);
      assert r[|IntString(year)| + 1..] == ZFill(IntString(month), 2);
      r
    else IntString(year) + "-" + ZFill(IntString(month), 2)
  }

  /** The stored month string reads back as the year and month it was made from. */
  lemma MonthStringRoundTrip(year: nat, month: int)
    requires 1 <= month <= 12
    ensures ParseMonth(FormatMonth(year, month)) == Success((year, month))
  {
    var a, b := DecimalString(year), ZFill(DecimalString(month), 2);
    ZFillDigitsValue(DecimalString(month), 2);
    forall i | 0 <= i < |a| ensures a[i] != '-' { assert IsDigit(a[i]); }
    forall i | 0 <= i < |b| ensures b[i] != '-' { assert IsDigit(b[i]); }
    assert Join([a, b], '-') == FormatMonth(year, month);
    SplitJoin([a, b], '-');
    ParsePaddedDecimal(year, 0);
    ParsePaddedDecimal(month, 2);
  }

  /** A value stored in a document field. */
  datatype FieldValue = FStr(s: string) | FNum(r: real) | FInt(i: int) | FBool(b: bool)

  /**
   * `float(teacher.get("hourly_rate") or 0.0)`: a missing or falsy value
   * gives 0.0, a boolean counts as 1 or 0, and a string `float` refuses
   * gives 0.0.
   */
  function StoredRate(stored: Option<FieldValue>): (rate: real)
    ensures stored.None? ==> rate == 0.0
    ensures stored.Some? && stored.value.FNum? ==> rate == stored.value.r
    ensures stored.Some? && stored.value.FInt? ==> rate == stored.value.i as real
    ensures stored.Some? && stored.value.FBool? ==> rate == if stored.value.b then 1.0 else 0.0
    ensures stored.Some? && stored.value.FStr? && stored.value.s == "" ==> rate == 0.0
    ensures stored.Some? && stored.value.FStr? && ParseDecimal(stored.value.s).Some? ==>
      rate == ParseDecimal(stored.value.s).value
    ensures stored.Some? && stored.value.FStr? && ParseDecimal(stored.value.s).None? ==> rate == 0.0
  {
    match stored
    case None => 0.0
    case Some(FNum(r)) => r
    case Some(FInt(i)) => i as real
    case Some(FBool(b)) => if b then 1.0 else 0.0
    case Some(FStr(s)) => if s == "" then 0.0 else ParseDecimal(s).GetOr(0.0)
  }

  /**
   * The hourly rate: the form's override when it is not blank, otherwise
   * the teacher's stored rate, otherwise 0.  An override `float` cannot read
   * gives 0, not the teacher's rate.
   */
  function ResolveHourlyRate(override: string, stored: Option<FieldValue>): (rate: real)
    ensures Strip(override) != "" && ParseDecimal(override).Some? ==> rate == ParseDecimal(override).value
    ensures Strip(override) != "" && ParseDecimal(override).None? ==> rate == 0.0
    ensures Strip(override) == "" ==> rate == StoredRate(stored)
  {
    if Strip(override) != "" then ParseDecimal(override).GetOr(0.0) else StoredRate(stored)
  }

  /** One attendance entry: whose, when, and how many hours. */
  datatype Attendance = Attendance(teacherId: string, date: DateTime, hours: real)

  /** The `$match`/`$group` aggregation: the teacher's hours dated within [start, end]. */
  function HoursInRange(entries: seq<Attendance>, teacherId: string, start: DateTime, end: DateTime): (total: real)
    ensures (forall i :: 0 <= i < |entries| ==> entries[i].hours >= 0.0) ==> total >= 0.0
    ensures (forall i :: 0 <= i < |entries| ==> entries[i].teacherId != teacherId) ==> total == 0.0
  {
    if entries == [] then 0.0
    else
      var e := entries[|entries| - 1];
      HoursInRange(entries[..|entries| - 1], teacherId, start, end)
        + (if e.teacherId == teacherId && NotAfter(start, e.date) && NotAfter(e.date, end) then e.hours else 0.0)
  }

  /** The teacher's hours logged in a calendar month, selected by the date's year and month. */
  function MonthHours(entries: seq<Attendance>, teacherId: string, year: int, month: int): real
  {
    if entries == [] then 0.0
    else
      var e := entries[|entries| - 1];
      MonthHours(entries[..|entries| - 1], teacherId, year, month)
        + (if e.teacherId == teacherId && e.date.year == year && e.date.month == month then e.hours else 0.0)
  }

  predicate ValidDates(entries: seq<Attendance>) {
    forall i :: 0 <= i < |entries| ==> Valid(entries[i].date)
  }

  /** Aggregating over the range `month_date_range` gives exactly the month's hours. */
  lemma {:induction false} RangeHoursAreMonthHours(entries: seq<Attendance>, teacherId: string, year: int, month: int)
    requires MonthDateRange(year, month).Success?
    ensures ValidDates(entries) ==> var (start, end) := MonthDateRange(year, month).value;
      HoursInRange(entries, teacherId, start, end) == MonthHours(entries, teacherId, year, month)
  {
    if entries != [] && ValidDates(entries) {
      var e := entries[|entries| - 1];
      assert Valid(e.date);
      RangeHoursAreMonthHours(entries[..|entries| - 1], teacherId, year, month);
      MonthRangeIsTheMonth(year, month, e.date);
    }
  }

  /** `round(total_hours * hourly_rate, 2)`, the hours-mode amount. */
  function HoursAmount(totalHours: real, hourlyRate: real): (amount: real)
    ensures IsCents(amount)
    ensures -0.005 <= amount - totalHours * hourlyRate <= 0.005
  {
    Round2(totalHours * hourlyRate)
  }

  /** The amount is never negative for non-negative hours and rate, and is exact when the product is whole paise. */
  lemma HoursAmountFacts(totalHours: real, hourlyRate: real)
    ensures totalHours >= 0.0 && hourlyRate >= 0.0 ==> HoursAmount(totalHours, hourlyRate) >= 0.0
    ensures IsCents(totalHours * hourlyRate) ==> HoursAmount(totalHours, hourlyRate) == totalHours * hourlyRate
  {
    if totalHours >= 0.0 && hourlyRate >= 0.0 {
      assert totalHours * hourlyRate >= 0.0;
      RoundMonotone(0.0, totalHours * hourlyRate);
      RoundCents(0.0);
    }
    if IsCents(totalHours * hourlyRate) {
      RoundCents(totalHours * hourlyRate);
    }
  }

  /** The posted form of `/salary/generate`; a field not sent is "". */
  datatype SalaryForm = SalaryForm(teacherId: string, teacher: string, month: string,
                                   manualHours: string, hourlyRate: string, save: string)

  /** A faculty document: its id, name and default hourly rate. */
  datatype Teacher = Teacher(id: string, name: string, hourlyRate: Option<FieldValue>)

  /** The computed hours-mode salary returned to the caller. */
  datatype HoursSalary = HoursSalary(teacherId: string, teacherName: string, year: int, month: int,
                                     monthStr: string, totalHours: real, hourlyRate: real, amount: real,
                                     usedManual: bool)

  /** `teacher_id`, falling back to the `teacher` field. */
  function FormTeacherId(form: SalaryForm): string {
    if form.teacherId != "" then form.teacherId else form.teacher
  }

  /**
   * The POST branch of `salary_generate` once the teacher and month are
   * known: the rate, manual or aggregated hours, and
   * `amount = round(total_hours * hourly_rate, 2)`.
   */
  function SalaryForMonth(form: SalaryForm, teacher: Teacher, year: int, month: int, attendance: seq<Attendance>)
    : (r: Result<HoursSalary, string>)
    ensures Strip(form.manualHours) != "" && ParseDecimal(form.manualHours).None? ==> r == Failure(InvalidManualHours)
    ensures r.Success? <==>
      !(Strip(form.manualHours) != "" && ParseDecimal(form.manualHours).None?) && MonthDateRange(year, month).Success?
    ensures !(Strip(form.manualHours) != "" && ParseDecimal(form.manualHours).None?) && MonthDateRange(year, month).Failure? ==>
      r == Failure(ServerErrorPrefix + MonthDateRange(year, month).error)
    ensures r.Success? ==>
      && r.value.teacherId == teacher.id && r.value.teacherName == teacher.name
      && r.value.year == year && r.value.month == month && r.value.monthStr == FormatMonth(year, month)
      && r.value.hourlyRate == ResolveHourlyRate(form.hourlyRate, teacher.hourlyRate)
      && r.value.amount == HoursAmount(r.value.totalHours, r.value.hourlyRate)
      && (r.value.usedManual <==> Strip(form.manualHours) != "")
      && (r.value.usedManual ==> ParseDecimal(form.manualHours) == Some(r.value.totalHours))
      && (!r.value.usedManual && ValidDates(attendance) ==>
            r.value.totalHours == MonthHours(attendance, Strip(FormTeacherId(form)), year, month))
  {
    var rate := ResolveHourlyRate(form.hourlyRate, teacher.hourlyRate);
    var usedManual := Strip(form.manualHours) != "";
    var manual := ParseDecimal(form.manualHours);
    if usedManual && manual.None? then Failure(InvalidManualHours)
    else
      match MonthDateRange(year, month)
      case Failure(e) => Failure(ServerErrorPrefix + e)
      case Success((start, end)) =>
        var tid := Strip(FormTeacherId(form));
        var hours := if usedManual then manual.value else HoursInRange(attendance, tid, start, end);
        RangeHoursAreMonthHours(attendance, tid, year, month);
        Success(HoursSalary(teacher.id, teacher.name, year, month, FormatMonth(year, month),
                            hours, rate, HoursAmount(hours, rate), usedManual))
  }

  /**
   * The POST branch of `salary_generate` up to the save: the validations in
   * order, then the salary for the parsed month.  `teacher` is what the
   * faculty lookup found for the posted id.
   */
  function ComputeHoursSalary(form: SalaryForm, teacher: Option<Teacher>, attendance: seq<Attendance>)
    : (r: Result<HoursSalary, string>)
    ensures FormTeacherId(form) == "" ==> r == Failure(MissingTeacherId)
    ensures FormTeacherId(form) != "" && form.month == "" ==> r == Failure(MissingMonth)
    ensures FormTeacherId(form) != "" && form.month != "" && ParseMonth(form.month).Failure? ==>
      r == Failure(InvalidMonthFormat)
    ensures FormTeacherId(form) != "" && ParseMonth(form.month).Success? && teacher.None? ==>
      r == Failure(TeacherNotFound)
    ensures FormTeacherId(form) != "" && ParseMonth(form.month).Success? && teacher.Some? ==>
      r == SalaryForMonth(form, teacher.value, ParseMonth(form.month).value.0, ParseMonth(form.month).value.1, attendance)
  {
    var tid := FormTeacherId(form);
    if tid == "" then Failure(MissingTeacherId)
    else if form.month == "" then Failure(MissingMonth)
    else
      match ParseMonth(form.month)
      case Failure(_) => Failure(InvalidMonthFormat)
      case Success((year, month)) =>
        if teacher.None? then Failure(TeacherNotFound)
        else SalaryForMonth(form, teacher.value, year, month, attendance)
  }

  /**
   * Past the validations, a readable non-blank `manual_hours` is the salary's
   * hours whatever attendance was logged, and the amount is those hours at
   * the resolved rate.
   */
  lemma ManualHoursReplaceLogged(form: SalaryForm, teacher: Teacher, attendance: seq<Attendance>, hours: real)
    requires FormTeacherId(form) != "" && ParseMonth(form.month).Success?
    requires MonthDateRange(ParseMonth(form.month).value.0, ParseMonth(form.month).value.1).Success?
    requires Strip(form.manualHours) != "" && ParseDecimal(form.manualHours) == Some(hours)
    ensures var r := ComputeHoursSalary(form, Some(teacher), attendance);
      && r.Success? && r.value.usedManual && r.value.totalHours == hours
      && r.value.amount == HoursAmount(hours, ResolveHourlyRate(form.hourlyRate, teacher.hourlyRate))
  {
  }

  /**
   * Past the validations, a blank `manual_hours` makes the salary's hours the
   * teacher's hours logged in the parsed month.
   */
  lemma BlankManualUsesLogged(form: SalaryForm, teacher: Teacher, attendance: seq<Attendance>)
    requires FormTeacherId(form) != "" && ParseMonth(form.month).Success?
    requires MonthDateRange(ParseMonth(form.month).value.0, ParseMonth(form.month).value.1).Success?
    requires Strip(form.manualHours) == "" && ValidDates(attendance)
    ensures var r := ComputeHoursSalary(form, Some(teacher), attendance);
      var (year, month) := ParseMonth(form.month).value;
      && r.Success? && !r.value.usedManual
      && r.value.totalHours == MonthHours(attendance, Strip(FormTeacherId(form)), year, month)
      && r.value.amount == HoursAmount(r.value.totalHours, ResolveHourlyRate(form.hourlyRate, teacher.hourlyRate))
  {
  }

  /** Attendance for the worked cases: 10 hours of "t1" in May 2024, plus entries outside it. */
  function ExampleAttendance(): seq<Attendance> {
    [ Attendance("t1", DateTime(2024, 5, 3, 10, 0, 0, 0), 6.0),
      Attendance("t2", DateTime(2024, 5, 3, 10, 0, 0, 0), 5.0),
      Attendance("t1", DateTime(2024, 5, 31, 23, 59, 59, 999999), 4.0),
      Attendance("t1", DateTime(2024, 6, 1, 0, 0, 0, 0), 3.0) ]
  }

  function ExampleForm(manualHours: string): SalaryForm {
    SalaryForm("t1", "", FormatMonth(2024, 5), manualHours, "", "on")
  }

  const ExampleTeacher: Teacher := Teacher("t1", "Asha", Some(FNum(200.0)))

  /** The example entries are real dates, and "t1" logged 10 hours in May 2024. */
  lemma ExampleMonthHours()
    ensures ValidDates(ExampleAttendance())
    ensures MonthHours(ExampleAttendance(), "t1", 2024, 5) == 10.0
  {
    var att := ExampleAttendance();
    forall i | 0 <= i < |att| ensures Valid(att[i].date) {
      assert DaysInMonth(2024, 5) == 31 && DaysInMonth(2024, 6) == 30;
    }
    assert att[..1][..0] == [] && att[..2][..1] == att[..1] && att[..3][..2] == att[..2];
    assert MonthHours(att[..1], "t1", 2024, 5) == 6.0;
    assert MonthHours(att[..2], "t1", 2024, 5) == 6.0;
    assert MonthHours(att[..3], "t1", 2024, 5) == 10.0;
    assert att[..4] == att;
  }

  /** The example request names teacher "t1" and May 2024, a representable month, and uses the teacher's rate of 200. */
  lemma ExampleRequest(manualHours: string)
    ensures ParseMonth(ExampleForm(manualHours).month) == Success((2024, 5))
    ensures MonthDateRange(2024, 5).Success?
    ensures FormTeacherId(ExampleForm(manualHours)) == "t1" && Strip("t1") == "t1"
    ensures ResolveHourlyRate(ExampleForm(manualHours).hourlyRate, ExampleTeacher.hourlyRate) == 200.0
  {
    ExampleMonth(manualHours);
    ExampleTeacherId(manualHours);
    ExampleTeacherRate();
  }

  /** The example month "2024-05" parses and has a representable range. */
  lemma ExampleMonth(manualHours: string)
    ensures ParseMonth(ExampleForm(manualHours).month) == Success((2024, 5))
    ensures MonthDateRange(2024, 5).Success?
  {
    MonthStringRoundTrip(2024, 5);
  }

  /** The example request names teacher "t1", which has no whitespace to strip. */
  lemma ExampleTeacherId(manualHours: string)
    ensures FormTeacherId(ExampleForm(manualHours)) == "t1" && Strip("t1") == "t1"
  {
    StripUnpadded("t1");
  }

  /** With no override the teacher's stored rate of 200 applies. */
  lemma ExampleTeacherRate()
    ensures ResolveHourlyRate("", ExampleTeacher.hourlyRate) == 200.0
  {
    assert Strip("") == "";
  }

  /** 10 logged hours at the teacher's rate of 200 an hour come to 2000.00. */
  lemma AggregatedHoursExample()
    ensures var r := ComputeHoursSalary(ExampleForm(""), Some(ExampleTeacher), ExampleAttendance());
      r.Success? && r.value.totalHours == 10.0 && r.value.hourlyRate == 200.0 && r.value.amount == 2000.0
  {
    ExampleRequest("");
    ExampleMonthHours();
    BlankManualUsesLogged(ExampleForm(""), ExampleTeacher, ExampleAttendance());
    HoursAmountFacts(10.0, 200.0);
    WholeAmountIsCents(2000);
  }

  /** "5" is read as 5 manual hours. */
  lemma FiveHours()
    ensures Strip("5") == "5" && ParseDecimal("5") == Some(5.0)
  {
    assert DecimalString(5) == "5";
    ParseDecimalOfInteger(5);
    StripUnpadded("5");
  }

  /**
   * 5 manual hours replace the 10 logged ones: 1000.00.  Any entry that
   * reads as 5 hours does, "5" among them (`FiveHours`).
   */
  lemma ManualHoursExample(manualHours: string)
    requires Strip(manualHours) != "" && ParseDecimal(manualHours) == Some(5.0)
    ensures var r := ComputeHoursSalary(ExampleForm(manualHours), Some(ExampleTeacher), ExampleAttendance());
      r.Success? && r.value.usedManual && r.value.totalHours == 5.0 && r.value.amount == 1000.0
  {
    ExampleMonth(manualHours);
    ExampleTeacherId(manualHours);
    ManualHoursReplaceLogged(ExampleForm(manualHours), ExampleTeacher, ExampleAttendance(), 5.0);
    ExampleTeacherRate();
    HoursAmountFacts(5.0, 200.0);
    WholeAmountIsCents(1000);
  }

  type Document = map<string, FieldValue>

  /** The upsert filter `{teacher_id, year, month, mode}`; mode is "hours" or "days". */
  datatype SalaryKey = SalaryKey(teacherId: string, year: int, month: int, mode: string)

  /** The fields an upsert copies from its filter into a document it inserts. */
  function KeyFields(key: SalaryKey): Document {
    map["teacher_id" := FStr(key.teacherId), "year" := FInt(key.year), "month" := FInt(key.month), "mode" := FStr(key.mode)]
  }

  /** The `$set` fields do not contradict the filter they are saved under. */
  predicate AgreesWithKey(key: SalaryKey, fields: Document) {
    forall f :: f in fields && f in KeyFields(key) ==> fields[f] == KeyFields(key)[f]
  }

  /**
   * `update_one(key, {"$set": fields}, upsert=True)`: the record under the key
   * gets the new fields on top of what it held; a missing record is created
   * from the filter's fields and the new ones.  Other records are untouched.
   */
  function Upserted(records: map<SalaryKey, Document>, key: SalaryKey, fields: Document): (r: map<SalaryKey, Document>)
    ensures r.Keys == records.Keys + {key}
    ensures forall k :: k in records && k != key ==> r[k] == records[k]
    ensures forall f :: f in fields ==> f in r[key] && r[key][f] == fields[f]
    ensures key in records ==> forall f :: f in records[key] && f !in fields ==> f in r[key] && r[key][f] == records[key][f]
    ensures key in records ==> r[key].Keys == records[key].Keys + fields.Keys
    ensures key !in records ==> r[key].Keys == KeyFields(key).Keys + fields.Keys
    ensures key !in records ==> forall f :: f in KeyFields(key) && f !in fields ==> r[key][f] == KeyFields(key)[f]
  {
    var base := if key in records then records[key] else KeyFields(key);
    records[key := base + fields]
  }

  /** Every record carries its own key in its key fields. */
  predicate KeysConsistent(records: map<SalaryKey, Document>) {
    forall k :: k in records ==> forall f :: f in KeyFields(k) ==> f in records[k] && records[k][f] == KeyFields(k)[f]
  }

  /** Saving fields that agree with their key keeps every record consistent with its key. */
  lemma UpsertKeepsKeysConsistent(records: map<SalaryKey, Document>, key: SalaryKey, fields: Document)
    requires KeysConsistent(records) && AgreesWithKey(key, fields)
    ensures KeysConsistent(Upserted(records, key, fields))
  {
    var r := Upserted(records, key, fields);
    forall k, f | k in r && f in KeyFields(k) ensures f in r[k] && r[k][f] == KeyFields(k)[f] {
      if k == key {
        if f in fields {
          assert fields[f] == KeyFields(key)[f];
        } else if key in records {
          assert f in records[key];
        }
      }
    }
  }

  /**
   * Saving twice under one key leaves one record, holding what the second
   * save wrote, when the second save writes every field the first did (as
   * every save of one mode does).
   */
  lemma SaveTwiceKeepsLatest(records: map<SalaryKey, Document>, key: SalaryKey, first: Document, second: Document)
    requires first.Keys <= second.Keys
    ensures Upserted(Upserted(records, key, first), key, second) == Upserted(records, key, second)
  {
    var base := if key in records then records[key] else KeyFields(key);
    OverwrittenFields(base, first, second);
  }

  /** Fields written again by a later `$set` keep only the later values. */
  lemma OverwrittenFields(base: Document, first: Document, second: Document)
    requires first.Keys <= second.Keys
    ensures base + first + second == base + second
  {
  }

  /** An hours record and a days record for the same teacher and month live side by side. */
  lemma HoursAndDaysCoexist(records: map<SalaryKey, Document>, teacherId: string, year: int, month: int,
                            hoursFields: Document, daysFields: Document)
    ensures var hoursKey, daysKey := SalaryKey(teacherId, year, month, "hours"), SalaryKey(teacherId, year, month, "days");
      var r := Upserted(Upserted(records, hoursKey, hoursFields), daysKey, daysFields);
      && hoursKey in r && daysKey in r
      && (forall f :: f in hoursFields ==> f in r[hoursKey] && r[hoursKey][f] == hoursFields[f])
      && (forall f :: f in daysFields ==> f in r[daysKey] && r[daysKey][f] == daysFields[f])
  {
    var hoursKey, daysKey := SalaryKey(teacherId, year, month, "hours"), SalaryKey(teacherId, year, month, "days");
    assert hoursKey != daysKey;
  }

  /** The filter an hours-mode salary is saved under. */
  function HoursKey(s: HoursSalary): SalaryKey {
    SalaryKey(s.teacherId, s.year, s.month, "hours")
  }

  /** The `salary_doc` of an hours-mode save (its `generated_on` clock reading aside). */
  function HoursDocument(s: HoursSalary): (doc: Document)
    ensures AgreesWithKey(HoursKey(s), doc)
  {
    map[
      "teacher_id" := FStr(s.teacherId),
      "teacher_name" := FStr(s.teacherName),
      "year" := FInt(s.year),
      "month" := FInt(s.month),
      "month_str" := FStr(s.monthStr),
      "total_hours" := FNum(s.totalHours),
      "hourly_rate" := FNum(s.hourlyRate),
      "amount" := FNum(s.amount),
      "manual_entry" := FBool(s.usedManual),
      "mode" := FStr("hours")]
  }

  /** The `save` checkbox: "on" or "true". */
  predicate SaveRequested(form: SalaryForm) {
    form.save == "on" || form.save == "true"
  }

  /** The salaries collection, one record per (teacher, year, month, mode). */
  class SalaryStore {
    var records: map<SalaryKey, Document>

    ghost predicate Valid()
      reads this
    {
      KeysConsistent(records)
    }

    constructor ()
      ensures Valid() && records == map[]
    {
      records := map[];
    }

    method Upsert(key: SalaryKey, fields: Document)
      requires Valid() && AgreesWithKey(key, fields)
      modifies this
      ensures Valid()
      ensures records == Upserted(old(records), key, fields)
    {
      UpsertKeepsKeysConsistent(records, key, fields);
      records := Upserted(records, key, fields);
    }

    /**
     * The POST branch of `salary_generate`: compute the hours-mode salary and,
     * when asked to save, upsert it under (teacher, year, month, "hours").
     */
    method GenerateHoursSalary(form: SalaryForm, teacher: Option<Teacher>, attendance: seq<Attendance>)
      returns (r: Result<HoursSalary, string>, saved: bool)
      requires Valid()
      modifies this
      ensures Valid()
      ensures r == ComputeHoursSalary(form, teacher, attendance)
      ensures saved <==> r.Success? && SaveRequested(form)
      ensures saved ==> records == Upserted(old(records), HoursKey(r.value), HoursDocument(r.value))
      ensures !saved ==> records == old(records)
    {
      r := ComputeHoursSalary(form, teacher, attendance);
      saved := false;
      if r.Success? && SaveRequested(form) {
        Upsert(HoursKey(r.value), HoursDocument(r.value));
        saved := true;
      }
    }

    /**
     * The upsert of `salary_generate_days`: the caller's figures, saved with
     * the key fields under (teacher, year, month, "days"), without recomputation.
     */
    method SaveDaysSalary(teacherId: string, year: int, month: int, figures: Document)
      requires Valid()
      modifies this
      ensures Valid()
      ensures records == Upserted(old(records), SalaryKey(teacherId, year, month, "days"),
                                  figures + KeyFields(SalaryKey(teacherId, year, month, "days")))
    {
      var key := SalaryKey(teacherId, year, month, "days");
      Upsert(key, figures + KeyFields(key));
    }
  }
}
