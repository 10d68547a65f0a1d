/**
 * The profile pages: `/Student/Course` (personal details),
 * `/Student/StudentOfficial` (official details) and
 * `/Student/StudentQualification` (qualifications, reached by a postback).
 */
module Profile {
  import opened Wrappers
  import opened Dom
  import opened Tokens
  import opened Forms
  import opened Http

  /** An element found by id: its trimmed text content and its attributes. */
  datatype Element = Element(text: string, attributes: map<string, string>)

  /** The elements of a page, by id. */
  type Document = map<string, Element>

  /** `getText("#<id>")`: the element's trimmed text, `""` when there is no such element. */
  function GetText(doc: Document, id: string): (s: string)
    ensures id !in doc ==> s == ""
    ensures id in doc ==> s == doc[id].text
  {
    if id in doc then doc[id].text else ""
  }

  /** `getAttr("#<id>", attr)`: the attribute's value, `""` when the element or the attribute is missing. */
  function GetAttr(doc: Document, id: string, attr: string): (s: string)
    ensures id !in doc || attr !in doc[id].attributes ==> s == ""
    ensures id in doc && attr in doc[id].attributes ==> s == doc[id].attributes[attr]
  {
    if id in doc && attr in doc[id].attributes then doc[id].attributes[attr] else ""
  }

  /** The two documents have the same elements at each of `ids`. */
  predicate AgreeOn(doc1: Document, doc2: Document, ids: set<string>) {
    forall id :: id in ids ==> (id in doc1 <==> id in doc2) && (id in doc1 ==> doc1[id] == doc2[id])
  }

  // ---------------------------------------------------------------------
  // Personal details

  datatype ProfileData = ProfileData(
    photo: string,
    admissionNo: string,
    regFormNo: string,
    name: string,
    gender: string,
    bloodGroup: string,
    dob: string,
    presentAddress: string,
    city: string,
    state: string,
    pinCode: string,
    phone: string,
    email: string,
    remark: string,
    localGuardianName: string,
    localGuardianAddress: string,
    localGuardianPhone: string,
    fatherName: string,
    fatherMobile: string,
    fatherEmail: string,
    motherName: string,
    motherMobile: string,
    motherEmail: string,
    occupation: string,
    designation: string,
    annualIncome: string,
    permanentAddress: string,
    permanentCity: string,
    permanentState: string,
    permanentPinCode: string,
    permanentPhone: string,
    guardianMobile: string)

  const PhotoId := "MCPH1_SCPH_ViewStudentPhoto_ifrmaeImg"

  /** Every id the personal details are read from. */
  const ProfileIds: set<string> := {
    PhotoId,
    "MCPH1_SCPH_lblAdmNo",
    "MCPH1_SCPH_lblRegNo",
    "MCPH1_SCPH_lblName",
    "MCPH1_SCPH_lblGender",
    "MCPH1_SCPH_lblBG",
    "MCPH1_SCPH_lblDOB",
    "MCPH1_SCPH_lblPresentAdd",
    "MCPH1_SCPH_lblCity1",
    "MCPH1_SCPH_lblstate1",
    "MCPH1_SCPH_lblPin1",
    "MCPH1_SCPH_lblPhone1",
    "MCPH1_SCPH_lblEmail1",
    "MCPH1_SCPH_lblRemark",
    "MCPH1_SCPH_lblLGuard",
    "MCPH1_SCPH_lblAddress1",
    "MCPH1_SCPH_lblPhone",
    "MCPH1_SCPH_lblfather",
    "MCPH1_SCPH_lblfmob",
    "MCPH1_SCPH_lblFEmail",
    "MCPH1_SCPH_lblmother",
    "MCPH1_SCPH_lblMobile",
    "MCPH1_SCPH_lblMEmail",
    "MCPH1_SCPH_lblOccupation",
    "MCPH1_SCPH_lblDesi",
    "MCPH1_SCPH_lblMon",
    "MCPH1_SCPH_lblParmanantAdd",
    "MCPH1_SCPH_lblCity2",
    "MCPH1_SCPH_lblState2",
    "MCPH1_SCPH_lblpin2",
    "MCPH1_SCPH_lblPhone2",
    "MCPH1_SCPH_lblmob"}

  /** The personal details: the photo's `src` and the text of one label per field. */
  function ProfileOf(doc: Document): ProfileData {
    ProfileData(
      GetAttr(doc, PhotoId, "src"),
      GetText(doc, "MCPH1_SCPH_lblAdmNo"),
      GetText(doc, "MCPH1_SCPH_lblRegNo"),
      GetText(doc, "MCPH1_SCPH_lblName"),
      GetText(doc, "MCPH1_SCPH_lblGender"),
      GetText(doc, "MCPH1_SCPH_lblBG"),
      GetText(doc, "MCPH1_SCPH_lblDOB"),
      GetText(doc, "MCPH1_SCPH_lblPresentAdd"),
      GetText(doc, "MCPH1_SCPH_lblCity1"),
      GetText(doc, "MCPH1_SCPH_lblstate1"),
      GetText(doc, "MCPH1_SCPH_lblPin1"),
      GetText(doc, "MCPH1_SCPH_lblPhone1"),
      GetText(doc, "MCPH1_SCPH_lblEmail1"),
      GetText(doc, "MCPH1_SCPH_lblRemark"),
      GetText(doc, "MCPH1_SCPH_lblLGuard"),
      GetText(doc, "MCPH1_SCPH_lblAddress1"),
      GetText(doc, "MCPH1_SCPH_lblPhone"),
      GetText(doc, "MCPH1_SCPH_lblfather"),
      GetText(doc, "MCPH1_SCPH_lblfmob"),
      GetText(doc, "MCPH1_SCPH_lblFEmail"),
      GetText(doc, "MCPH1_SCPH_lblmother"),
      GetText(doc, "MCPH1_SCPH_lblMobile"),
      GetText(doc, "MCPH1_SCPH_lblMEmail"),
      GetText(doc, "MCPH1_SCPH_lblOccupation"),
      GetText(doc, "MCPH1_SCPH_lblDesi"),
      GetText(doc, "MCPH1_SCPH_lblMon"),
      GetText(doc, "MCPH1_SCPH_lblParmanantAdd"),
      GetText(doc, "MCPH1_SCPH_lblCity2"),
      GetText(doc, "MCPH1_SCPH_lblState2"),
      GetText(doc, "MCPH1_SCPH_lblpin2"),
      GetText(doc, "MCPH1_SCPH_lblPhone2"),
      GetText(doc, "MCPH1_SCPH_lblmob"))
  }

  /** A page without any of the elements gives a profile of empty fields. */
  lemma BlankProfile(doc: Document)
    requires forall id :: id in ProfileIds ==> id !in doc
    ensures ProfileOf(doc) == ProfileData("", "", "", "", "", "", "", "", "", "", "", "", "", "", "", "", "", "", "", "", "", "", "", "", "", "", "", "", "", "", "", "")
  {
  }

  /** The profile depends on the listed elements and nothing else on the page. */
  lemma ProfileReadsOnly(doc1: Document, doc2: Document)
    requires AgreeOn(doc1, doc2, ProfileIds)
    ensures ProfileOf(doc1) == ProfileOf(doc2)
  {
  }

  const ProfileEndpoint := "/Student/Course"

  /** `fetchProfileData`: load the page, then read the details from it. */
  method FetchProfileData(response: Response<Document>) returns (request: Request, result: Result<ProfileData, int>)
    ensures request == Get(ProfileEndpoint)
    ensures !response.Ok() ==> result == Failure(response.status)
    ensures response.Ok() ==> result == Success(ProfileOf(response.body))
  {
    request := Get(ProfileEndpoint);
    if !response.Ok() {
      return request, Failure(response.status);
    }
    result := Success(ProfileOf(response.body));
  }

  // ---------------------------------------------------------------------
  // Official details

  datatype OfficialDetailsData = OfficialDetailsData(
    admissionNo: string,
    accountId: string,
    admissionDate: string,
    status: string,
    session: string,
    program: string,
    admSem: string,
    currentSem: string,
    groupName: string,
    quota: string,
    hostel: string,
    transport: string,
    officialMail: string,
    name: string,
    category: string,
    rollNo: string,
    enrollmentNo: string,
    regFormNo: string,
    serialNo: string,
    admThrough: string,
    referenceBy: string,
    lateralEntry: string,
    xiiPcm: string,
    xiiAgg: string,
    mess: string,
    mentorName: string,
    mentorCode: string,
    mentorMobile: string,
    mentorEmail: string,
    department: string,
    mentorDesignation: string,
    cabinNo: string)

  /** Every id the official details are read from. */
  const OfficialIds: set<string> := {
    "MCPH1_SCPH_lbladmissionNo",
    "MCPH1_SCPH_lblaccountID",
    "MCPH1_SCPH_lbladmissiondate",
    "MCPH1_SCPH_lblstatus",
    "MCPH1_SCPH_lblsession",
    "MCPH1_SCPH_lblprogram",
    "MCPH1_SCPH_lbladmSem",
    "MCPH1_SCPH_lblcurrentSem",
    "MCPH1_SCPH_lblgroupName",
    "MCPH1_SCPH_lblquota",
    "MCPH1_SCPH_lblhostel",
    "MCPH1_SCPH_lblTransport",
    "MCPH1_SCPH_lblOffMail",
    "MCPH1_SCPH_lblNa",
    "MCPH1_SCPH_lblcategory",
    "MCPH1_SCPH_lblrollNo",
    "MCPH1_SCPH_lbkenrollmentNo",
    "MCPH1_SCPH_lblregformNo",
    "MCPH1_SCPH_lblserialNo",
    "MCPH1_SCPH_lblAdmthrough",
    "MCPH1_SCPH_lblReferenceBy",
    "MCPH1_SCPH_lbllateralEntry",
    "MCPH1_SCPH_lblXIIPCM",
    "MCPH1_SCPH_lblXIIAGG",
    "MCPH1_SCPH_lblmess",
    "MCPH1_SCPH_lblMentorName",
    "MCPH1_SCPH_lblMentorCode",
    "MCPH1_SCPH_lblMobile",
    "MCPH1_SCPH_lblEmail",
    "MCPH1_SCPH_lblDept",
    "MCPH1_SCPH_lblDesg",
    "MCPH1_SCPH_lblCabinNo"}

  /** The official, registration and mentor details: the text of one label per field. */
  function OfficialDetailsOf(doc: Document): OfficialDetailsData {
    OfficialDetailsData(
      GetText(doc, "MCPH1_SCPH_lbladmissionNo"),
      GetText(doc, "MCPH1_SCPH_lblaccountID"),
      GetText(doc, "MCPH1_SCPH_lbladmissiondate"),
      GetText(doc, "MCPH1_SCPH_lblstatus"),
      GetText(doc, "MCPH1_SCPH_lblsession"),
      GetText(doc, "MCPH1_SCPH_lblprogram"),
      GetText(doc, "MCPH1_SCPH_lbladmSem"),
      GetText(doc, "MCPH1_SCPH_lblcurrentSem"),
      GetText(doc, "MCPH1_SCPH_lblgroupName"),
      GetText(doc, "MCPH1_SCPH_lblquota"),
      GetText(doc, "MCPH1_SCPH_lblhostel"),
      GetText(doc, "MCPH1_SCPH_lblTransport"),
      GetText(doc, "MCPH1_SCPH_lblOffMail"),
      GetText(doc, "MCPH1_SCPH_lblNa"),
      GetText(doc, "MCPH1_SCPH_lblcategory"),
      GetText(doc, "MCPH1_SCPH_lblrollNo"),
      GetText(doc, "MCPH1_SCPH_lbkenrollmentNo"),
      GetText(doc, "MCPH1_SCPH_lblregformNo"),
      GetText(doc, "MCPH1_SCPH_lblserialNo"),
      GetText(doc, "MCPH1_SCPH_lblAdmthrough"),
      GetText(doc, "MCPH1_SCPH_lblReferenceBy"),
      GetText(doc, "MCPH1_SCPH_lbllateralEntry"),
      GetText(doc, "MCPH1_SCPH_lblXIIPCM"),
      GetText(doc, "MCPH1_SCPH_lblXIIAGG"),
      GetText(doc, "MCPH1_SCPH_lblmess"),
      GetText(doc, "MCPH1_SCPH_lblMentorName"),
      GetText(doc, "MCPH1_SCPH_lblMentorCode"),
      GetText(doc, "MCPH1_SCPH_lblMobile"),
      GetText(doc, "MCPH1_SCPH_lblEmail"),
      GetText(doc, "MCPH1_SCPH_lblDept"),
      GetText(doc, "MCPH1_SCPH_lblDesg"),
      GetText(doc, "MCPH1_SCPH_lblCabinNo"))
  }

  /** A page without any of the elements gives details of empty fields. */
  lemma BlankOfficialDetails(doc: Document)
    requires forall id :: id in OfficialIds ==> id !in doc
    ensures OfficialDetailsOf(doc) == OfficialDetailsData("", "", "", "", "", "", "", "", "", "", "", "", "", "", "", "", "", "", "", "", "", "", "", "", "", "", "", "", "", "", "", "")
  {
  }

  /** The details depend on the listed elements and nothing else on the page. */
  lemma OfficialDetailsReadOnly(doc1: Document, doc2: Document)
    requires AgreeOn(doc1, doc2, OfficialIds)
    ensures OfficialDetailsOf(doc1) == OfficialDetailsOf(doc2)
  {
  }

  const OfficialEndpoint := "/Student/StudentOfficial"

  /** `fetchOfficialDetailsData`: load the page, then read the details from it. */
  method FetchOfficialDetailsData(response: Response<Document>)
    returns (request: Request, result: Result<OfficialDetailsData, int>)
    ensures request == Get(OfficialEndpoint)
    ensures !response.Ok() ==> result == Failure(response.status)
    ensures response.Ok() ==> result == Success(OfficialDetailsOf(response.body))
  {
    request := Get(OfficialEndpoint);
    if !response.Ok() {
      return request, Failure(response.status);
    }
    result := Success(OfficialDetailsOf(response.body));
  }

  // ---------------------------------------------------------------------
  // Qualifications

  const QualificationEndpoint := "/Student/StudentQualification"
  const QualificationTableId := "MCPH1_SCPH_GVQualification"
  const HdnStdIdField := "ctl00$ctl00$MCPH1$SCPH$hdnstdid"
  const AdmNoField := "ctl00$ctl00$MCPH1$SCPH$txtadmno"
  const HiddenField1 := "ctl00$ctl00$MCPH1$SCPH$HiddenField1"
  const SearchButton := "ctl00$ctl00$MCPH1$SCPH$btnsearchs"

  /** The values the qualification page is posted back with. */
  datatype QualificationTokens = QualificationTokens(
    viewState: string, viewStateGenerator: string, viewStateEncrypted: string,
    eventValidation: string, hdnStudentId: string, txtAdmNo: string)

  /**
   * The tokens read from the qualification page: each `""` when its input is
   * missing or empty, except the admission number, which falls back to the
   * caller's student id.
   */
  function QualificationTokensOf(page: Inputs, payload: PayloadData): (t: QualificationTokens)
    ensures t.viewState == Value(page, ViewStateField)
    ensures t.viewStateGenerator == Value(page, ViewStateGeneratorField)
    ensures t.viewStateEncrypted == Value(page, ViewStateEncryptedField)
    ensures t.eventValidation == Value(page, EventValidationField)
    ensures t.hdnStudentId == Value(page, HdnStdIdField)
    ensures ViewStateField !in page ==> t.viewState == ""
    ensures ViewStateGeneratorField !in page ==> t.viewStateGenerator == ""
    ensures ViewStateEncryptedField !in page ==> t.viewStateEncrypted == ""
    ensures EventValidationField !in page ==> t.eventValidation == ""
    ensures HdnStdIdField !in page ==> t.hdnStudentId == ""
    ensures AdmNoField in page && page[AdmNoField] != "" ==> t.txtAdmNo == page[AdmNoField]
    ensures !(AdmNoField in page && page[AdmNoField] != "") ==> t.txtAdmNo == payload.hdnStudentId
  {
    QualificationTokens(
      Value(page, ViewStateField),
      Value(page, ViewStateGeneratorField),
      Value(page, ViewStateEncryptedField),
      Value(page, EventValidationField),
      Value(page, HdnStdIdField),
      ValueOr(page, AdmNoField, payload.hdnStudentId))
  }

  /** The postback that asks for the qualification table. */
  function QualificationForm(t: QualificationTokens): (body: FormData)
    ensures body.Get(ViewStateField) == Some(t.viewState)
    ensures body.Get(ViewStateGeneratorField) == Some(t.viewStateGenerator)
    ensures body.Get(ViewStateEncryptedField) == Some(t.viewStateEncrypted)
    ensures body.Get(EventValidationField) == Some(t.eventValidation)
    ensures body.Get(HdnStdIdField) == Some(t.hdnStudentId)
    ensures body.Get(AdmNoField) == Some(t.txtAdmNo)
    ensures body.Get(SearchButton) == Some("Show")
  {
    EmptyForm
      .Append(ViewStateField, t.viewState)
      .Append(ViewStateGeneratorField, t.viewStateGenerator)
      .Append(ViewStateEncryptedField, t.viewStateEncrypted)
      .Append(EventValidationField, t.eventValidation)
      .Append(SchoolMasterField, "0")
      .Append(CaseCssField, "textDefault")
      .Append(HiddenField1, "0")
      .Append(HdnStdIdField, t.hdnStudentId)
      .Append(AdmNoField, t.txtAdmNo)
      .Append(SearchButton, "Show")
  }

  /**
   * The qualification postback sends back the page's own tokens: every token
   * input the page carries with a non-empty value reaches the body unchanged,
   * and a missing admission number is replaced by the caller's student id.
   */
  lemma QualificationFormEchoesPage(page: Inputs, payload: PayloadData, name: string)
    requires name in {ViewStateField, ViewStateGeneratorField, ViewStateEncryptedField,
                      EventValidationField, HdnStdIdField, AdmNoField}
    requires name in page && page[name] != ""
    ensures QualificationForm(QualificationTokensOf(page, payload)).Get(name) == Some(page[name])
  {
  }

  /** Without an admission number on the page, the body carries the caller's student id. */
  lemma QualificationFormAdmNoFallback(page: Inputs, payload: PayloadData)
    requires AdmNoField !in page || page[AdmNoField] == ""
    ensures QualificationForm(QualificationTokensOf(page, payload)).Get(AdmNoField) == Some(payload.hdnStudentId)
  {
  }

  datatype QualificationRecord = QualificationRecord(
    sno: string, qualification: string, subject: string, college: string, board: string,
    medium: string, yearPassing: string, percentage: string, grade: string, cgpa: string)

  datatype QualificationData = QualificationData(
    name: string, admissionNo: string, admissionDate: string, status: string,
    session: string, program: string, qualifications: seq<QualificationRecord>)

  /** The page the postback returns: its labels and its tables, by id. */
  datatype QualificationPage = QualificationPage(elements: Document, tables: Tables)

  /** A row is kept when it has ten cells and names a qualification. */
  predicate IsQualificationRow(row: Row) {
    |row| >= 10 && CellText(row, 1) != ""
  }

  function QualificationRecordOf(row: Row): QualificationRecord {
    QualificationRecord(CellText(row, 0), CellText(row, 1), CellText(row, 2), CellText(row, 3), CellText(row, 4),
                        CellText(row, 5), CellText(row, 6), CellText(row, 7), CellText(row, 8), CellText(row, 9))
  }

  function Qualifications(table: Table): (records: seq<QualificationRecord>)
    ensures table.None? ==> records == []
    ensures |records| < |RowsOf(table)| || records == []
  {
    Select(AfterHeader(table), IsQualificationRow, QualificationRecordOf)
  }

  /**
   * The student's header labels and the qualification rows. Without the
   * table the list is empty while the header fields are still read.
   */
  function QualificationDataOf(page: QualificationPage): (q: QualificationData)
    ensures q.name == GetText(page.elements, "MCPH1_SCPH_lblNa")
    ensures q.admissionNo == GetText(page.elements, "MCPH1_SCPH_lbladmissionNo")
    ensures q.admissionDate == GetText(page.elements, "MCPH1_SCPH_lbladmissiondate")
    ensures q.status == GetText(page.elements, "MCPH1_SCPH_lblstatus")
    ensures q.session == GetText(page.elements, "MCPH1_SCPH_lblsession")
    ensures q.program == GetText(page.elements, "MCPH1_SCPH_lblprogram")
    ensures q.qualifications == Qualifications(TableById(page.tables, QualificationTableId))
    ensures QualificationTableId !in page.tables ==> q.qualifications == []
  {
    QualificationData(
      GetText(page.elements, "MCPH1_SCPH_lblNa"),
      GetText(page.elements, "MCPH1_SCPH_lbladmissionNo"),
      GetText(page.elements, "MCPH1_SCPH_lbladmissiondate"),
      GetText(page.elements, "MCPH1_SCPH_lblstatus"),
      GetText(page.elements, "MCPH1_SCPH_lblsession"),
      GetText(page.elements, "MCPH1_SCPH_lblprogram"),
      Qualifications(TableById(page.tables, QualificationTableId)))
  }

  /**
   * A record comes from a row other than row 0 with at least ten cells whose
   * cell 1 is non-empty, and every such row gives one.
   */
  lemma QualificationsMembers(table: Table, r: QualificationRecord)
    ensures r in Qualifications(table)
      <==> exists i :: 1 <= i < |RowsOf(table)| && |RowsOf(table)[i]| >= 10 && CellText(RowsOf(table)[i], 1) != ""
                    && QualificationRecordOf(RowsOf(table)[i]) == r
  {
    AfterHeaderMembers(table, IsQualificationRow, QualificationRecordOf, r);
  }

  /** Every returned qualification is named. */
  lemma QualificationsNamed(table: Table)
    ensures forall r :: r in Qualifications(table) ==> r.qualification != ""
  {
    forall r | r in Qualifications(table) ensures r.qualification != "" {
      QualificationsMembers(table, r);
    }
  }

  /** A new last row adds its record, if kept, after all the others. */
  lemma QualificationsInRowOrder(rows: seq<Row>, row: Row)
    requires |rows| >= 1
    ensures Qualifications(Some(rows + [row]))
      == Qualifications(Some(rows)) + (if IsQualificationRow(row) then [QualificationRecordOf(row)] else [])
  {
    AfterHeaderSnoc(rows, row, IsQualificationRow, QualificationRecordOf);
  }

  method ParseQualificationData(page: QualificationPage) returns (data: QualificationData)
    ensures data == QualificationDataOf(page)
  {
    data := QualificationData(
      GetText(page.elements, "MCPH1_SCPH_lblNa"),
      GetText(page.elements, "MCPH1_SCPH_lbladmissionNo"),
      GetText(page.elements, "MCPH1_SCPH_lbladmissiondate"),
      GetText(page.elements, "MCPH1_SCPH_lblstatus"),
      GetText(page.elements, "MCPH1_SCPH_lblsession"),
      GetText(page.elements, "MCPH1_SCPH_lblprogram"),
      []);
    var table := TableById(page.tables, QualificationTableId);
    if table.Some? {
      var rows := table.value;
      ghost var body := AfterHeader(table);
      var i := 1;
      while i < |rows|
        invariant 1 <= i <= |body| + 1
        invariant data == QualificationDataOf(page).(qualifications := Select(body[..i - 1], IsQualificationRow, QualificationRecordOf))
      {
        var cells := rows[i];
        SelectSnoc(body, i - 1, IsQualificationRow, QualificationRecordOf);
        if |cells| >= 10 {
          var qualification := CellText(cells, 1);
          if qualification != "" {
            data := data.(qualifications := data.qualifications + [QualificationRecordOf(cells)]);
          }
        }
        i := i + 1;
      }
      assert body[..i - 1] == body;
    }
  }

  /**
   * `fetchQualificationData`: load the page for its tokens, post them back,
   * then read the result. A failed step ends with that step's status.
   */
  method FetchQualificationData(payload: PayloadData, getResponse: Response<Inputs>,
                                postResponse: Response<QualificationPage>)
    returns (requests: seq<Request>, result: Result<QualificationData, int>)
    ensures !getResponse.Ok() ==> requests == [Get(QualificationEndpoint)] && result == Failure(getResponse.status)
    ensures getResponse.Ok() ==> requests == [Get(QualificationEndpoint),
      Post(QualificationEndpoint, QualificationForm(QualificationTokensOf(getResponse.body, payload)))]
    ensures getResponse.Ok() && !postResponse.Ok() ==> result == Failure(postResponse.status)
    ensures getResponse.Ok() && postResponse.Ok() ==> result == Success(QualificationDataOf(postResponse.body))
  {
    requests := [Get(QualificationEndpoint)];
    if !getResponse.Ok() {
      return requests, Failure(getResponse.status);
    }
    var tokens := QualificationTokensOf(getResponse.body, payload);
    requests := requests + [Post(QualificationEndpoint, QualificationForm(tokens))];
    if !postResponse.Ok() {
      return requests, Failure(postResponse.status);
    }
    var data := ParseQualificationData(postResponse.body);
    result := Success(data);
  }
}
