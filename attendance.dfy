/**
 * The five attendance views of `/Student/TodayAttendence`: their postback
 * bodies and the parsers of their result tables.
 */
module Attendance {
  import opened Wrappers
  import opened Dom
  import opened Tokens
  import opened Forms
  import opened Http

  datatype AttendanceRecord = AttendanceRecord(
    srNo: string, year: string, course: string, semester: string,
    subject: string, time: string, kind: string, status: string)

  datatype MonthlyAttendanceRecord = MonthlyAttendanceRecord(
    srNo: string, year: string, course: string, semester: string,
    month: string, percentage: string)

  datatype SubjectWiseAttendanceRecord = SubjectWiseAttendanceRecord(
    srNo: string, year: string, course: string, semester: string,
    subject: string, percentage: string)

  datatype DateWiseAttendanceRecord = DateWiseAttendanceRecord(
    srNo: string, year: string, course: string, semester: string,
    date: string, subject: string, timeSlot: string, kind: string, status: string)

  datatype SemesterAttendanceRecord = SemesterAttendanceRecord(
    srNo: string, year: string, course: string, semester: string,
    percentage: string)

  // ---------------------------------------------------------------------
  // Postback bodies

  const DateFromField := "ctl00$ctl00$MCPH1$SCPH$txtDFrom"
  const DateToField := "ctl00$ctl00$MCPH1$SCPH$txtDTo"
  const FromField := "ctl00$ctl00$MCPH1$SCPH$txtFrom"
  const ToField := "ctl00$ctl00$MCPH1$SCPH$txtTo"

  const TodayButton := "ctl00$ctl00$MCPH1$SCPH$btntodayAtt"
  const MonthlyButton := "ctl00$ctl00$MCPH1$SCPH$btnMonthlyAtt"
  const SubjectButton := "ctl00$ctl00$MCPH1$SCPH$btnShowSubject"
  const DateWiseButton := "ctl00$ctl00$MCPH1$SCPH$btnShowAtt"
  const SemesterButton := "ctl00$ctl00$MCPH1$SCPH$btnSemAtt"

  /** The submit fields that select which attendance view the page renders. */
  const ViewButtons: set<string> := {TodayButton, MonthlyButton, SubjectButton, DateWiseButton, SemesterButton}

  /** The two date ranges of the page; each view fills at most one. */
  const RangeFields := {DateFromField, DateToField, FromField, ToField}

  /** The fields every attendance postback starts with. */
  function Prologue(p: PayloadData): (body: FormData)
    ensures body.EchoesTokens(p)
    ensures body.Get(StudentIdField) == Some(p.hdnStudentId)
    ensures forall k {:trigger body.Get(k)} :: k in ViewButtons || k in RangeFields ==> body.Get(k) == None
  {
    EmptyForm
      .Append(ViewStateField, p.viewState)
      .Append(ViewStateGeneratorField, p.viewStateGenerator)
      .Append(EventValidationField, p.eventValidation)
      .Append(SchoolMasterField, "0")
      .Append(CaseCssField, "textDefault")
      .Append(StudentIdField, p.hdnStudentId)
  }

  function TodayAttendanceForm(p: PayloadData): (body: FormData)
    ensures body.EchoesTokens(p)
    ensures body.Get(StudentIdField) == Some(p.hdnStudentId)
    ensures forall b :: b in ViewButtons ==> (body.Get(b).Some? <==> b == TodayButton)
    ensures body.Get(TodayButton) == Some("Today Attendance")
    ensures body.Get(DateFromField) == Some("") && body.Get(DateToField) == Some("")
    ensures body.Get(FromField) == Some("") && body.Get(ToField) == Some("")
  {
    Prologue(p)
      .Append(TodayButton, "Today Attendance")
      .Append(DateFromField, "")
      .Append(DateToField, "")
      .Append(FromField, "")
      .Append(ToField, "")
  }

  function MonthlyAttendanceForm(p: PayloadData): (body: FormData)
    ensures body.EchoesTokens(p)
    ensures body.Get(StudentIdField) == Some(p.hdnStudentId)
    ensures forall b :: b in ViewButtons ==> (body.Get(b).Some? <==> b == MonthlyButton)
    ensures body.Get(MonthlyButton) == Some("Monthly Attendance")
    ensures body.Get(DateFromField) == Some("") && body.Get(DateToField) == Some("")
    ensures body.Get(FromField) == Some("") && body.Get(ToField) == Some("")
  {
    Prologue(p)
      .Append(MonthlyButton, "Monthly Attendance")
      .Append(DateFromField, "")
      .Append(DateToField, "")
      .Append(FromField, "")
      .Append(ToField, "")
  }

  /** The subject-wise view takes its range in `txtDFrom`/`txtDTo`. */
  function SubjectWiseAttendanceForm(p: PayloadData, dateFrom: string, dateTo: string): (body: FormData)
    ensures body.EchoesTokens(p)
    ensures body.Get(StudentIdField) == Some(p.hdnStudentId)
    ensures forall b :: b in ViewButtons ==> (body.Get(b).Some? <==> b == SubjectButton)
    ensures body.Get(SubjectButton) == Some("Show")
    ensures body.Get(DateFromField) == Some(dateFrom) && body.Get(DateToField) == Some(dateTo)
    ensures body.Get(FromField) == Some("") && body.Get(ToField) == Some("")
  {
    Prologue(p)
      .Append(DateFromField, dateFrom)
      .Append(DateToField, dateTo)
      .Append(SubjectButton, "Show")
      .Append(FromField, "")
      .Append(ToField, "")
  }

  /** The date-wise view takes its range in `txtFrom`/`txtTo`. */
  function DateWiseAttendanceForm(p: PayloadData, dateFrom: string, dateTo: string): (body: FormData)
    ensures body.EchoesTokens(p)
    ensures body.Get(StudentIdField) == Some(p.hdnStudentId)
    ensures forall b :: b in ViewButtons ==> (body.Get(b).Some? <==> b == DateWiseButton)
    ensures body.Get(DateWiseButton) == Some("Show")
    ensures body.Get(DateFromField) == Some("") && body.Get(DateToField) == Some("")
    ensures body.Get(FromField) == Some(dateFrom) && body.Get(ToField) == Some(dateTo)
  {
    Prologue(p)
      .Append(DateFromField, "")
      .Append(DateToField, "")
      .Append(FromField, dateFrom)
      .Append(ToField, dateTo)
      .Append(DateWiseButton, "Show")
  }

  function SemesterAttendanceForm(p: PayloadData): (body: FormData)
    ensures body.EchoesTokens(p)
    ensures body.Get(StudentIdField) == Some(p.hdnStudentId)
    ensures forall b :: b in ViewButtons ==> (body.Get(b).Some? <==> b == SemesterButton)
    ensures body.Get(SemesterButton) == Some("Semester Attendance")
    ensures body.Get(DateFromField) == Some("") && body.Get(DateToField) == Some("")
    ensures body.Get(FromField) == Some("") && body.Get(ToField) == Some("")
  {
    Prologue(p)
      .Append(SemesterButton, "Semester Attendance")
      .Append(DateFromField, "")
      .Append(DateToField, "")
      .Append(FromField, "")
      .Append(ToField, "")
  }

  // ---------------------------------------------------------------------
  // Result tables
  //
  // Each view's loop starts at row 1, skips rows narrower than the view's
  // width and maps cells to fields by position.

  const AttendanceEndpoint := "/Student/TodayAttendence"

  const TodayTableId := "MCPH1_SCPH_gvDailyAttendence1"
  const MonthlyTableId := "MCPH1_SCPH_gvMonthly"
  const SubjectTableId := "MCPH1_SCPH_GVSubject"
  const DateWiseTableId := "MCPH1_SCPH_gvDateWise"
  const SemesterTableId := "MCPH1_SCPH_gvAttendanceDetail"

  // Today

  predicate IsTodayRow(row: Row) {
    |row| >= 8
  }

  function TodayRecord(row: Row): AttendanceRecord {
    AttendanceRecord(CellText(row, 0), CellText(row, 1), CellText(row, 2), CellText(row, 3),
                     CellText(row, 4), CellText(row, 5), CellText(row, 6), CellText(row, 7))
  }

  /** The records of the daily table. */
  function TodayAttendance(table: Table): (records: seq<AttendanceRecord>)
    ensures table.None? ==> records == []
    ensures |records| < |RowsOf(table)| || records == []
  {
    Select(AfterHeader(table), IsTodayRow, TodayRecord)
  }

  /** A record is produced exactly by a row other than row 0 with at least 8 cells. */
  lemma TodayAttendanceMembers(table: Table, r: AttendanceRecord)
    ensures r in TodayAttendance(table)
      <==> exists i :: 1 <= i < |RowsOf(table)| && |RowsOf(table)[i]| >= 8 && TodayRecord(RowsOf(table)[i]) == r
  {
    AfterHeaderMembers(table, IsTodayRow, TodayRecord, r);
  }

  /** A new last row adds its record, if wide enough, after all the others. */
  lemma TodayAttendanceInRowOrder(rows: seq<Row>, row: Row)
    requires |rows| >= 1
    ensures TodayAttendance(Some(rows + [row]))
      == TodayAttendance(Some(rows)) + (if |row| >= 8 then [TodayRecord(row)] else [])
  {
    AfterHeaderSnoc(rows, row, IsTodayRow, TodayRecord);
  }

  method ParseTodayAttendance(table: Table) returns (records: seq<AttendanceRecord>)
    ensures records == TodayAttendance(table)
  {
    records := [];
    if table.Some? {
      var rows := table.value;
      ghost var body := AfterHeader(table);
      var i := 1;
      while i < |rows|
        invariant 1 <= i <= |body| + 1
        invariant records == Select(body[..i - 1], IsTodayRow, TodayRecord)
      {
        var cells := rows[i];
        SelectSnoc(body, i - 1, IsTodayRow, TodayRecord);
        if |cells| >= 8 {
          records := records + [TodayRecord(cells)];
        }
        i := i + 1;
      }
      assert body[..i - 1] == body;
    }
  }

  /** `fetchAttendanceData`: the request it posts, then what it makes of the response. */
  method FetchAttendanceData(p: PayloadData, response: Response<Tables>)
    returns (request: Request, result: Result<seq<AttendanceRecord>, int>)
    ensures request == Post(AttendanceEndpoint, TodayAttendanceForm(p))
    ensures !response.Ok() ==> result == Failure(response.status)
    ensures response.Ok() ==> result == Success(TodayAttendance(TableById(response.body, TodayTableId)))
  {
    request := Post(AttendanceEndpoint, TodayAttendanceForm(p));
    if !response.Ok() {
      return request, Failure(response.status);
    }
    var records := ParseTodayAttendance(TableById(response.body, TodayTableId));
    result := Success(records);
  }

  // Monthly

  predicate IsMonthlyRow(row: Row) {
    |row| >= 6
  }

  /** The percentage is read from the `<span>` inside cell 5. */
  function MonthlyRecord(row: Row): MonthlyAttendanceRecord {
    MonthlyAttendanceRecord(CellText(row, 0), CellText(row, 1), CellText(row, 2), CellText(row, 3),
                            CellText(row, 4), SpanText(row, 5))
  }

  /** The records of the monthly table. */
  function MonthlyAttendance(table: Table): (records: seq<MonthlyAttendanceRecord>)
    ensures table.None? ==> records == []
    ensures |records| < |RowsOf(table)| || records == []
  {
    Select(AfterHeader(table), IsMonthlyRow, MonthlyRecord)
  }

  /** A record is produced exactly by a row other than row 0 with at least 6 cells. */
  lemma MonthlyAttendanceMembers(table: Table, r: MonthlyAttendanceRecord)
    ensures r in MonthlyAttendance(table)
      <==> exists i :: 1 <= i < |RowsOf(table)| && |RowsOf(table)[i]| >= 6 && MonthlyRecord(RowsOf(table)[i]) == r
  {
    AfterHeaderMembers(table, IsMonthlyRow, MonthlyRecord, r);
  }

  /** A new last row adds its record, if wide enough, after all the others. */
  lemma MonthlyAttendanceInRowOrder(rows: seq<Row>, row: Row)
    requires |rows| >= 1
    ensures MonthlyAttendance(Some(rows + [row]))
      == MonthlyAttendance(Some(rows)) + (if |row| >= 6 then [MonthlyRecord(row)] else [])
  {
    AfterHeaderSnoc(rows, row, IsMonthlyRow, MonthlyRecord);
  }

  /**
   * The percentage is the span's text, `""` without a span; the text of the
   * cell itself never matters.
   */
  lemma MonthlyPercentageFromSpan(row: Row, text: string)
    requires |row| >= 6
    ensures MonthlyRecord(row).percentage == row[5].span.GetOr("")
    ensures MonthlyRecord(row[5 := Cell(text, row[5].span)]) == MonthlyRecord(row)
  {
  }

  method ParseMonthlyAttendance(table: Table) returns (records: seq<MonthlyAttendanceRecord>)
    ensures records == MonthlyAttendance(table)
  {
    records := [];
    if table.Some? {
      var rows := table.value;
      ghost var body := AfterHeader(table);
      var i := 1;
      while i < |rows|
        invariant 1 <= i <= |body| + 1
        invariant records == Select(body[..i - 1], IsMonthlyRow, MonthlyRecord)
      {
        var cells := rows[i];
        SelectSnoc(body, i - 1, IsMonthlyRow, MonthlyRecord);
        if |cells| >= 6 {
          records := records + [MonthlyRecord(cells)];
        }
        i := i + 1;
      }
      assert body[..i - 1] == body;
    }
  }

  /** `fetchMonthlyAttendanceData`: the request it posts, then what it makes of the response. */
  method FetchMonthlyAttendanceData(p: PayloadData, response: Response<Tables>)
    returns (request: Request, result: Result<seq<MonthlyAttendanceRecord>, int>)
    ensures request == Post(AttendanceEndpoint, MonthlyAttendanceForm(p))
    ensures !response.Ok() ==> result == Failure(response.status)
    ensures response.Ok() ==> result == Success(MonthlyAttendance(TableById(response.body, MonthlyTableId)))
  {
    request := Post(AttendanceEndpoint, MonthlyAttendanceForm(p));
    if !response.Ok() {
      return request, Failure(response.status);
    }
    var records := ParseMonthlyAttendance(TableById(response.body, MonthlyTableId));
    result := Success(records);
  }

  // SubjectWise

  predicate IsSubjectWiseRow(row: Row) {
    |row| >= 6
  }

  /** The percentage is read from the `<span>` inside cell 5. */
  function SubjectWiseRecord(row: Row): SubjectWiseAttendanceRecord {
    SubjectWiseAttendanceRecord(CellText(row, 0), CellText(row, 1), CellText(row, 2), CellText(row, 3),
                                CellText(row, 4), SpanText(row, 5))
  }

  /** The records of the subject-wise table. */
  function SubjectWiseAttendance(table: Table): (records: seq<SubjectWiseAttendanceRecord>)
    ensures table.None? ==> records == []
    ensures |records| < |RowsOf(table)| || records == []
  {
    Select(AfterHeader(table), IsSubjectWiseRow, SubjectWiseRecord)
  }

  /** A record is produced exactly by a row other than row 0 with at least 6 cells. */
  lemma SubjectWiseAttendanceMembers(table: Table, r: SubjectWiseAttendanceRecord)
    ensures r in SubjectWiseAttendance(table)
      <==> exists i :: 1 <= i < |RowsOf(table)| && |RowsOf(table)[i]| >= 6 && SubjectWiseRecord(RowsOf(table)[i]) == r
  {
    AfterHeaderMembers(table, IsSubjectWiseRow, SubjectWiseRecord, r);
  }

  /** A new last row adds its record, if wide enough, after all the others. */
  lemma SubjectWiseAttendanceInRowOrder(rows: seq<Row>, row: Row)
    requires |rows| >= 1
    ensures SubjectWiseAttendance(Some(rows + [row]))
      == SubjectWiseAttendance(Some(rows)) + (if |row| >= 6 then [SubjectWiseRecord(row)] else [])
  {
    AfterHeaderSnoc(rows, row, IsSubjectWiseRow, SubjectWiseRecord);
  }

  /**
   * The percentage is the span's text, `""` without a span; the text of the
   * cell itself never matters.
   */
  lemma SubjectWisePercentageFromSpan(row: Row, text: string)
    requires |row| >= 6
    ensures SubjectWiseRecord(row).percentage == row[5].span.GetOr("")
    ensures SubjectWiseRecord(row[5 := Cell(text, row[5].span)]) == SubjectWiseRecord(row)
  {
  }

  method ParseSubjectWiseAttendance(table: Table) returns (records: seq<SubjectWiseAttendanceRecord>)
    ensures records == SubjectWiseAttendance(table)
  {
    records := [];
    if table.Some? {
      var rows := table.value;
      ghost var body := AfterHeader(table);
      var i := 1;
      while i < |rows|
        invariant 1 <= i <= |body| + 1
        invariant records == Select(body[..i - 1], IsSubjectWiseRow, SubjectWiseRecord)
      {
        var cells := rows[i];
        SelectSnoc(body, i - 1, IsSubjectWiseRow, SubjectWiseRecord);
        if |cells| >= 6 {
          records := records + [SubjectWiseRecord(cells)];
        }
        i := i + 1;
      }
      assert body[..i - 1] == body;
    }
  }

  /** `fetchSubjectWiseAttendanceData`: the request it posts, then what it makes of the response. */
  method FetchSubjectWiseAttendanceData(p: PayloadData, dateFrom: string, dateTo: string, response: Response<Tables>)
    returns (request: Request, result: Result<seq<SubjectWiseAttendanceRecord>, int>)
    ensures request == Post(AttendanceEndpoint, SubjectWiseAttendanceForm(p, dateFrom, dateTo))
    ensures !response.Ok() ==> result == Failure(response.status)
    ensures response.Ok() ==> result == Success(SubjectWiseAttendance(TableById(response.body, SubjectTableId)))
  {
    request := Post(AttendanceEndpoint, SubjectWiseAttendanceForm(p, dateFrom, dateTo));
    if !response.Ok() {
      return request, Failure(response.status);
    }
    var records := ParseSubjectWiseAttendance(TableById(response.body, SubjectTableId));
    result := Success(records);
  }

  // Semester

  predicate IsSemesterRow(row: Row) {
    |row| >= 5
  }

  /** The percentage is read from the `<span>` inside cell 4. */
  function SemesterRecord(row: Row): SemesterAttendanceRecord {
    SemesterAttendanceRecord(CellText(row, 0), CellText(row, 1), CellText(row, 2), CellText(row, 3),
                             SpanText(row, 4))
  }

  /** The records of the semester table. */
  function SemesterAttendance(table: Table): (records: seq<SemesterAttendanceRecord>)
    ensures table.None? ==> records == []
    ensures |records| < |RowsOf(table)| || records == []
  {
    Select(AfterHeader(table), IsSemesterRow, SemesterRecord)
  }

  /** A record is produced exactly by a row other than row 0 with at least 5 cells. */
  lemma SemesterAttendanceMembers(table: Table, r: SemesterAttendanceRecord)
    ensures r in SemesterAttendance(table)
      <==> exists i :: 1 <= i < |RowsOf(table)| && |RowsOf(table)[i]| >= 5 && SemesterRecord(RowsOf(table)[i]) == r
  {
    AfterHeaderMembers(table, IsSemesterRow, SemesterRecord, r);
  }

  /** A new last row adds its record, if wide enough, after all the others. */
  lemma SemesterAttendanceInRowOrder(rows: seq<Row>, row: Row)
    requires |rows| >= 1
    ensures SemesterAttendance(Some(rows + [row]))
      == SemesterAttendance(Some(rows)) + (if |row| >= 5 then [SemesterRecord(row)] else [])
  {
    AfterHeaderSnoc(rows, row, IsSemesterRow, SemesterRecord);
  }

  /**
   * The percentage is the span's text, `""` without a span; the text of the
   * cell itself never matters.
   */
  lemma SemesterPercentageFromSpan(row: Row, text: string)
    requires |row| >= 5
    ensures SemesterRecord(row).percentage == row[4].span.GetOr("")
    ensures SemesterRecord(row[4 := Cell(text, row[4].span)]) == SemesterRecord(row)
  {
  }

  method ParseSemesterAttendance(table: Table) returns (records: seq<SemesterAttendanceRecord>)
    ensures records == SemesterAttendance(table)
  {
    records := [];
    if table.Some? {
      var rows := table.value;
      ghost var body := AfterHeader(table);
      var i := 1;
      while i < |rows|
        invariant 1 <= i <= |body| + 1
        invariant records == Select(body[..i - 1], IsSemesterRow, SemesterRecord)
      {
        var cells := rows[i];
        SelectSnoc(body, i - 1, IsSemesterRow, SemesterRecord);
        if |cells| >= 5 {
          records := records + [SemesterRecord(cells)];
        }
        i := i + 1;
      }
      assert body[..i - 1] == body;
    }
  }

  /** `fetchSemesterAttendanceData`: the request it posts, then what it makes of the response. */
  method FetchSemesterAttendanceData(p: PayloadData, response: Response<Tables>)
    returns (request: Request, result: Result<seq<SemesterAttendanceRecord>, int>)
    ensures request == Post(AttendanceEndpoint, SemesterAttendanceForm(p))
    ensures !response.Ok() ==> result == Failure(response.status)
    ensures response.Ok() ==> result == Success(SemesterAttendance(TableById(response.body, SemesterTableId)))
  {
    request := Post(AttendanceEndpoint, SemesterAttendanceForm(p));
    if !response.Ok() {
      return request, Failure(response.status);
    }
    var records := ParseSemesterAttendance(TableById(response.body, SemesterTableId));
    result := Success(records);
  }

  // Date-wise

  /** The one-cell row the portal shows instead of an empty date-wise table. */
  predicate IsNoRecordRow(row: Row) {
    |row| == 1 && CellText(row, 0) == "No Record Found"
  }

  predicate IsDateWiseRow(row: Row) {
    |row| >= 9
  }

  function DateWiseRecord(row: Row): DateWiseAttendanceRecord {
    DateWiseAttendanceRecord(CellText(row, 0), CellText(row, 1), CellText(row, 2), CellText(row, 3),
                             CellText(row, 4), CellText(row, 5), CellText(row, 6), CellText(row, 7),
                             CellText(row, 8))
  }

  /** The records of the date-wise table, read up to the first "No Record Found" row. */
  function DateWiseAttendance(table: Table): (records: seq<DateWiseAttendanceRecord>)
    ensures table.None? ==> records == []
    ensures |records| < |RowsOf(table)| || records == []
  {
    Select(UntilSentinel(AfterHeader(table), IsNoRecordRow), IsDateWiseRow, DateWiseRecord)
  }

  /**
   * A record is produced exactly by a row other than row 0 with at least 9
   * cells and no "No Record Found" row between the header and it.
   */
  lemma DateWiseAttendanceMembers(table: Table, r: DateWiseAttendanceRecord)
    ensures r in DateWiseAttendance(table)
      <==> exists i :: 1 <= i < |RowsOf(table)| && NoSentinelBetween(RowsOf(table), 1, i)
                    && |RowsOf(table)[i]| >= 9 && DateWiseRecord(RowsOf(table)[i]) == r
  {
    var rows := RowsOf(table);
    var body := AfterHeader(table);
    SentinelMembers(body, IsNoRecordRow, IsDateWiseRow, DateWiseRecord, r);
    if exists k :: 0 <= k < |body| && NoStopBefore(body, IsNoRecordRow, k) && !IsNoRecordRow(body[k])
                  && IsDateWiseRow(body[k]) && DateWiseRecord(body[k]) == r {
      var k :| 0 <= k < |body| && NoStopBefore(body, IsNoRecordRow, k) && !IsNoRecordRow(body[k])
               && IsDateWiseRow(body[k]) && DateWiseRecord(body[k]) == r;
      assert rows[k + 1] == body[k];
      assert NoSentinelBetween(rows, 1, k + 1) by {
        forall j | 1 <= j < k + 1 ensures !IsNoRecordRow(rows[j]) {
          assert rows[j] == body[j - 1];
        }
      }
    }
    if exists i :: 1 <= i < |rows| && NoSentinelBetween(rows, 1, i) && |rows[i]| >= 9 && DateWiseRecord(rows[i]) == r {
      var i :| 1 <= i < |rows| && NoSentinelBetween(rows, 1, i) && |rows[i]| >= 9 && DateWiseRecord(rows[i]) == r;
      assert body[i - 1] == rows[i];
      assert NoStopBefore(body, IsNoRecordRow, i - 1) by {
        forall j | 0 <= j < i - 1 ensures !IsNoRecordRow(body[j]) {
          assert body[j] == rows[j + 1];
        }
      }
    }
  }

  /** No row with index in `[from, to)` is a "No Record Found" row. */
  predicate NoSentinelBetween(rows: seq<Row>, from: nat, to: nat)
    requires to <= |rows|
  {
    forall j :: from <= j < to ==> !IsNoRecordRow(rows[j])
  }

  /** Parsing stops at a "No Record Found" row: the rows from it on contribute nothing. */
  lemma DateWiseStopsAtSentinel(rows: seq<Row>, i: nat)
    requires 1 <= i < |rows| && IsNoRecordRow(rows[i])
    ensures DateWiseAttendance(Some(rows)) == DateWiseAttendance(Some(rows[..i]))
  {
    var body := rows[1..];
    assert body[i - 1] == rows[i];
    UntilSentinelAt(body, IsNoRecordRow, i - 1);
    assert body[..i - 1] == rows[..i][1..];
  }

  /**
   * A row that is neither the sentinel nor wide enough is skipped: taking it
   * out of the table changes nothing. This covers every other one-cell row.
   */
  lemma DateWiseSkipsRow(before: seq<Row>, row: Row, after: seq<Row>)
    requires |before| >= 1 && !IsNoRecordRow(row) && |row| < 9
    ensures DateWiseAttendance(Some(before + [row] + after)) == DateWiseAttendance(Some(before + after))
  {
    assert (before + [row] + after)[1..] == before[1..] + [row] + after;
    assert (before + after)[1..] == before[1..] + after;
    SkipInertRow(before[1..], row, after, IsNoRecordRow, IsDateWiseRow, DateWiseRecord);
  }

  method ParseDateWiseAttendance(table: Table) returns (records: seq<DateWiseAttendanceRecord>)
    ensures records == DateWiseAttendance(table)
  {
    records := [];
    if table.Some? {
      var rows := table.value;
      ghost var body := AfterHeader(table);
      var i := 1;
      while i < |rows|
        invariant 1 <= i <= |body| + 1
        invariant NoStopBefore(body, IsNoRecordRow, i - 1)
        invariant records == Select(body[..i - 1], IsDateWiseRow, DateWiseRecord)
      {
        var cells := rows[i];
        NoStopPrefix(body, IsNoRecordRow, i - 1);
        if |cells| == 1 {
          var cellText := CellText(cells, 0);
          if cellText == "No Record Found" {
            UntilSentinelAt(body, IsNoRecordRow, i - 1);
            break;
          }
        }
        SelectSnoc(body, i - 1, IsDateWiseRow, DateWiseRecord);
        if |cells| >= 9 {
          records := records + [DateWiseRecord(cells)];
        }
        i := i + 1;
      }
      NoStopPrefix(body, IsNoRecordRow, i - 1);
      if i - 1 == |body| {
        assert body[..i - 1] == body;
      }
    }
  }

  /** `fetchDateWiseAttendanceData`: the request it posts, then what it makes of the response. */
  method FetchDateWiseAttendanceData(p: PayloadData, dateFrom: string, dateTo: string, response: Response<Tables>)
    returns (request: Request, result: Result<seq<DateWiseAttendanceRecord>, int>)
    ensures request == Post(AttendanceEndpoint, DateWiseAttendanceForm(p, dateFrom, dateTo))
    ensures !response.Ok() ==> result == Failure(response.status)
    ensures response.Ok() ==> result == Success(DateWiseAttendance(TableById(response.body, DateWiseTableId)))
  {
    request := Post(AttendanceEndpoint, DateWiseAttendanceForm(p, dateFrom, dateTo));
    if !response.Ok() {
      return request, Failure(response.status);
    }
    var records := ParseDateWiseAttendance(TableById(response.body, DateWiseTableId));
    result := Success(records);
  }
}
