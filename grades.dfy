/**
 * `/Student/ExamResult`: the semester and exam choices of the results page,
 * the refreshed tokens read from it, the results postback and the parser of
 * the marks table.
 */
module Grades {
  import opened Wrappers
  import opened Text
  import opened Dom
  import opened Tokens
  import opened Forms
  import opened Http

  /** An `<option>`: its `value` attribute, if any, and its trimmed text. */
  datatype OptionElement = OptionElement(value: Option<string>, labelText: string)

  /** A choice offered to the user (`SemesterOption`, `ExamOption`). */
  datatype SelectOption = SelectOption(value: string, labelText: string)

  /**
   * The parts of the results page the client reads: the two `<select>`s by
   * id (`None` when missing) and the input elements by id, with their value.
   */
  datatype ExamResultPage = ExamResultPage(
    semesterSelect: Option<seq<OptionElement>>,
    examSelect: Option<seq<OptionElement>>,
    inputsById: Inputs)

  datatype SemestersAndExams = SemestersAndExams(
    semesters: seq<SelectOption>, exams: seq<SelectOption>, updatedPayload: PayloadData)

  datatype GradeRecord = GradeRecord(
    srNo: string, semester: string, subjectCode: string, subject: string,
    s1: string, st2: string, put: string, ta: string, mt1: string, st1: string)

  const ExamResultEndpoint := "/Student/ExamResult"
  const MarksTableId := "MCPH1_SCPH_gvmarksdetails"

  /** The value of the placeholder option of both selects. */
  const Placeholder := "--Select--"

  // ---------------------------------------------------------------------
  // Choices

  /** `option.getAttribute("value") || ""` */
  function OptionValue(o: OptionElement): string {
    o.value.GetOr("")
  }

  predicate IsChoice(o: OptionElement) {
    OptionValue(o) != Placeholder
  }

  function ToSelectOption(o: OptionElement): SelectOption {
    SelectOption(OptionValue(o), o.labelText)
  }

  /** The choices of a select: every option but the placeholder, in document order. */
  function SelectOptions(select: Option<seq<OptionElement>>): (options: seq<SelectOption>)
    ensures select.None? ==> options == []
  {
    Select(RowsOf(select), IsChoice, ToSelectOption)
  }

  /**
   * A choice is offered exactly when some option that is not the placeholder
   * has that value (`""` without the attribute) and labelText.
   */
  lemma SelectOptionsMembers(select: Option<seq<OptionElement>>, c: SelectOption)
    ensures c in SelectOptions(select)
      <==> exists i :: 0 <= i < |RowsOf(select)| && OptionValue(RowsOf(select)[i]) != Placeholder
                    && c == SelectOption(OptionValue(RowsOf(select)[i]), RowsOf(select)[i].labelText)
  {
    SelectMembers(RowsOf(select), IsChoice, ToSelectOption, c);
  }

  /** No choice is the placeholder. */
  lemma NoPlaceholderOffered(select: Option<seq<OptionElement>>)
    ensures forall c :: c in SelectOptions(select) ==> c.value != Placeholder
  {
    forall c | c in SelectOptions(select) ensures c.value != Placeholder {
      SelectOptionsMembers(select, c);
    }
  }

  /** A later option comes later among the choices. */
  lemma SelectOptionsInOrder(options: seq<OptionElement>, o: OptionElement)
    ensures SelectOptions(Some(options + [o]))
      == SelectOptions(Some(options)) + (if OptionValue(o) != Placeholder then [ToSelectOption(o)] else [])
  {
    assert (options + [o])[..|options|] == options;
  }

  /** The `forEach` over the options of one select. */
  method CollectOptions(select: Option<seq<OptionElement>>) returns (options: seq<SelectOption>)
    ensures options == SelectOptions(select)
  {
    options := [];
    if select.Some? {
      var all := select.value;
      var i := 0;
      while i < |all|
        invariant 0 <= i <= |all|
        invariant options == Select(all[..i], IsChoice, ToSelectOption)
      {
        var value := OptionValue(all[i]);
        var labelText := all[i].labelText;
        SelectSnoc(all, i, IsChoice, ToSelectOption);
        if value != Placeholder {
          options := options + [SelectOption(value, labelText)];
        }
        i := i + 1;
      }
      assert all[..i] == all;
    }
  }

  // ---------------------------------------------------------------------
  // Refreshed tokens

  /** The input ids the results page is read by. */
  const ViewStateId := "__VIEWSTATE"
  const ViewStateGeneratorId := "__VIEWSTATEGENERATOR"
  const EventValidationId := "__EVENTVALIDATION"
  const StudentIdId := "hdnStudentId"

  /** Each token is the page's value when non-empty, otherwise the caller's. */
  function UpdatedPayload(inputsById: Inputs, payload: PayloadData): (p: PayloadData)
    ensures p.viewState == (if ViewStateId in inputsById && inputsById[ViewStateId] != ""
                            then inputsById[ViewStateId] else payload.viewState)
    ensures p.viewStateGenerator == (if ViewStateGeneratorId in inputsById && inputsById[ViewStateGeneratorId] != ""
                                     then inputsById[ViewStateGeneratorId] else payload.viewStateGenerator)
    ensures p.eventValidation == (if EventValidationId in inputsById && inputsById[EventValidationId] != ""
                                  then inputsById[EventValidationId] else payload.eventValidation)
    ensures p.hdnStudentId == (if StudentIdId in inputsById && inputsById[StudentIdId] != ""
                               then inputsById[StudentIdId] else payload.hdnStudentId)
  {
    PayloadData(
      ValueOr(inputsById, ViewStateId, payload.viewState),
      ValueOr(inputsById, ViewStateGeneratorId, payload.viewStateGenerator),
      ValueOr(inputsById, EventValidationId, payload.eventValidation),
      ValueOr(inputsById, StudentIdId, payload.hdnStudentId))
  }

  /** A page without any of the four inputs leaves the payload as it was. */
  lemma UpdatedPayloadWithoutInputs(inputsById: Inputs, payload: PayloadData)
    requires ViewStateId !in inputsById && ViewStateGeneratorId !in inputsById
    requires EventValidationId !in inputsById && StudentIdId !in inputsById
    ensures UpdatedPayload(inputsById, payload) == payload
  {
  }

  /** Refreshing twice from the same page is refreshing once. */
  lemma UpdatedPayloadIdempotent(inputsById: Inputs, payload: PayloadData)
    ensures UpdatedPayload(inputsById, UpdatedPayload(inputsById, payload)) == UpdatedPayload(inputsById, payload)
  {
  }

  /**
   * `fetchSemestersAndExams`: load the results page, then read both selects
   * and the refreshed tokens. A failed load ends with its status.
   */
  method FetchSemestersAndExams(payload: PayloadData, response: Response<ExamResultPage>)
    returns (request: Request, result: Result<SemestersAndExams, int>)
    ensures request == Get(ExamResultEndpoint)
    ensures !response.Ok() ==> result == Failure(response.status)
    ensures response.Ok() ==> result == Success(SemestersAndExams(
      SelectOptions(response.body.semesterSelect),
      SelectOptions(response.body.examSelect),
      UpdatedPayload(response.body.inputsById, payload)))
  {
    request := Get(ExamResultEndpoint);
    if !response.Ok() {
      return request, Failure(response.status);
    }
    var semesters := CollectOptions(response.body.semesterSelect);
    var exams := CollectOptions(response.body.examSelect);
    result := Success(SemestersAndExams(semesters, exams, UpdatedPayload(response.body.inputsById, payload)));
  }

  // ---------------------------------------------------------------------
  // Results postback

  const HdnResultField := "ctl00$ctl00$MCPH1$SCPH$hdnResult"
  const SemesterField := "ctl00$ctl00$MCPH1$SCPH$ddldrp"
  const ExamNameField := "ctl00$ctl00$MCPH1$SCPH$ddlExamName"
  const RunButton := "ctl00$ctl00$MCPH1$SCPH$btnRun"

  /** The marks of one semester, for all exams. */
  function GradesForm(p: PayloadData, semester: string): (body: FormData)
    ensures body.Get(ViewStateField) == Some(p.viewState)
    ensures body.Get(ViewStateGeneratorField) == Some(p.viewStateGenerator)
    ensures body.Get(EventValidationField) == Some(p.eventValidation)
    ensures body.Get(ViewStateEncryptedField) == Some("")
    ensures body.Get(StudentIdField) == Some(p.hdnStudentId)
    ensures body.Get(SemesterField) == Some(semester)
    ensures body.Get(ExamNameField) == Some("All")
    ensures body.Get(RunButton) == Some("Show")
  {
    EmptyForm
      .Append(ViewStateField, p.viewState)
      .Append(ViewStateGeneratorField, p.viewStateGenerator)
      .Append(ViewStateEncryptedField, "")
      .Append(EventValidationField, p.eventValidation)
      .Append(SchoolMasterField, "0")
      .Append(CaseCssField, "textDefault")
      .Append(StudentIdField, p.hdnStudentId)
      .Append(HdnResultField, "0")
      .Append(SemesterField, semester)
      .Append(ExamNameField, "All")
      .Append(RunButton, "Show")
  }

  // ---------------------------------------------------------------------
  // Marks table

  /** The one-cell row the portal shows when there are no marks. */
  predicate IsNoMarksRow(row: Row) {
    |row| == 1 && (Contains(CellText(row, 0), "No Record") || Contains(CellText(row, 0), "No Data"))
  }

  predicate IsGradeRow(row: Row) {
    |row| >= 10
  }

  function GradeRecordOf(row: Row): GradeRecord {
    GradeRecord(CellText(row, 0), CellText(row, 1), CellText(row, 2), CellText(row, 3), CellText(row, 4),
                CellText(row, 5), CellText(row, 6), CellText(row, 7), CellText(row, 8), CellText(row, 9))
  }

  /** The records of the marks table: every body row from the first, up to a "no marks" row. */
  function GradeRecords(table: Table): (records: seq<GradeRecord>)
    ensures table.None? ==> records == []
    ensures |records| <= |RowsOf(table)|
  {
    Select(UntilSentinel(RowsOf(table), IsNoMarksRow), IsGradeRow, GradeRecordOf)
  }

  /**
   * A record is produced exactly by a row with at least ten cells, row 0
   * included, with no "no marks" row before it.
   */
  lemma GradeRecordsMembers(table: Table, r: GradeRecord)
    ensures r in GradeRecords(table)
      <==> exists i :: 0 <= i < |RowsOf(table)| && NoStopBefore(RowsOf(table), IsNoMarksRow, i)
                    && |RowsOf(table)[i]| >= 10 && GradeRecordOf(RowsOf(table)[i]) == r
  {
    SentinelMembers(RowsOf(table), IsNoMarksRow, IsGradeRow, GradeRecordOf, r);
  }

  /** There is no header to skip: a full first row gives the first record. */
  lemma FirstRowIsData(rows: seq<Row>)
    requires |rows| >= 1 && |rows[0]| >= 10
    ensures |GradeRecords(Some(rows))| >= 1 && GradeRecords(Some(rows))[0] == GradeRecordOf(rows[0])
  {
    var seen := UntilSentinel(rows, IsNoMarksRow);
    assert seen == [rows[0]] + UntilSentinel(rows[1..], IsNoMarksRow);
    SelectCons(rows[0], UntilSentinel(rows[1..], IsNoMarksRow), IsGradeRow, GradeRecordOf);
  }

  /** Parsing stops at a "no marks" row: the rows from it on contribute nothing. */
  lemma GradeRecordsStopAtSentinel(rows: seq<Row>, i: nat)
    requires i < |rows| && IsNoMarksRow(rows[i])
    ensures GradeRecords(Some(rows)) == GradeRecords(Some(rows[..i]))
  {
    UntilSentinelAt(rows, IsNoMarksRow, i);
  }

  /** A narrower row that is not the sentinel, such as a six-cell row, is skipped. */
  lemma NarrowRowSkipped(before: seq<Row>, row: Row, after: seq<Row>)
    requires !IsNoMarksRow(row) && |row| < 10
    ensures GradeRecords(Some(before + [row] + after)) == GradeRecords(Some(before + after))
  {
    SkipInertRow(before, row, after, IsNoMarksRow, IsGradeRow, GradeRecordOf);
  }

  method ParseGradeRecords(table: Table) returns (records: seq<GradeRecord>)
    ensures records == GradeRecords(table)
  {
    records := [];
    if table.Some? {
      var rows := table.value;
      var i := 0;
      while i < |rows|
        invariant 0 <= i <= |rows|
        invariant NoStopBefore(rows, IsNoMarksRow, i)
        invariant records == Select(rows[..i], IsGradeRow, GradeRecordOf)
      {
        var cells := rows[i];
        NoStopPrefix(rows, IsNoMarksRow, i);
        if |cells| == 1 {
          var cellText := CellText(cells, 0);
          if Contains(cellText, "No Record") || Contains(cellText, "No Data") {
            UntilSentinelAt(rows, IsNoMarksRow, i);
            break;
          }
        }
        SelectSnoc(rows, i, IsGradeRow, GradeRecordOf);
        if |cells| >= 10 {
          records := records + [GradeRecordOf(cells)];
        }
        i := i + 1;
      }
      NoStopPrefix(rows, IsNoMarksRow, i);
      if i == |rows| {
        assert rows[..i] == rows;
      }
    }
  }

  /** `fetchGradesData`: the request it posts, then what it makes of the response. */
  method FetchGradesData(p: PayloadData, semester: string, response: Response<Tables>)
    returns (request: Request, result: Result<seq<GradeRecord>, int>)
    ensures request == Post(ExamResultEndpoint, GradesForm(p, semester))
    ensures !response.Ok() ==> result == Failure(response.status)
    ensures response.Ok() ==> result == Success(GradeRecords(TableById(response.body, MarksTableId)))
  {
    request := Post(ExamResultEndpoint, GradesForm(p, semester));
    if !response.Ok() {
      return request, Failure(response.status);
    }
    var records := ParseGradeRecords(TableById(response.body, MarksTableId));
    result := Success(records);
  }
}
