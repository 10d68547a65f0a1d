# gportal client core, modelled in Dafny

gportal is a web client for a college's ASP.NET student portal. It logs the
student in, keeps the session's four tokens (`__VIEWSTATE`,
`__VIEWSTATEGENERATOR`, `__EVENTVALIDATION` and the hidden student id), replays
them in form postbacks, and turns the HTML tables the portal answers with into
records: attendance in five views, grades, qualifications, alerts and the
timetable.

This project models the layer between the network and the screen:

- **Documents.** A page is modelled as already-parsed values: a table is
  `Option<seq<Row>>`, a row is `seq<Cell>`, a cell holds its trimmed text and
  the trimmed text of its first `<span>`, and hidden inputs are a map from
  name to value (`Dom`).
- **Parsers.** Each table parser is a `method` with the source's loop, proved
  equal to a specification function. Lemmas state the rules about that
  function: the header is skipped, narrow rows are skipped, the sentinel row
  stops parsing, records keep row order, and fields come from fixed columns.
- **Form bodies.** A form body is the value `FormData`, built field by field
  in the source's `append` order (`Forms`). Each builder states which tokens it
  echoes and which single view button it presses.
- **Session.** The session holder is the class `Auth.AuthSession`. Its fields
  are the session state, the three storages and an effect log that records
  requests, clears and cookie writes in order. `Login` and `Logout` specify
  the new state and the exact log.
- **String helpers.** The project also covers the URL helpers of
  `src/config/api.ts` and `src/pages/Login.tsx`, and the period, sort and
  group-by-day logic of `src/pages/TimeTable.tsx`.

Network answers are parameters. A `Response<B>` is a status and a parsed
body. An `Option` that is `None` stands for a fetch that threw.

## Model

Some definitions carry no contract of their own and have no row below:
`Profile.ProfileOf`, `Profile.OfficialDetailsOf`, `Alerts.AlertOf`,
`Timetable.EventsFrom`, `Timetable.DayAfter`,
`TimetablePage.ExtractPeriodNumber`, `TimetablePage.GroupedByDay`,
`Auth.InitialAuthenticated`, `Auth.LoginForm`, `Auth.LogoutForm`,
`Auth.LoginRequests` and `Auth.LogoutRequests`. Each is characterised by the
lemma rows that cite the same source lines.

| member | source | states |
|---|---|---|
| Dom.TableById | src/utils/attendance.ts:101 | `querySelector("#id")`: a table is found exactly when the page has one with that id, and it is that table |
| Dom.ValueOr | src/utils/timetable.ts:41 | `value \|\| fallback`: a present non-empty value is returned, and otherwise the fallback |
| Dom.AfterHeader | src/utils/attendance.ts:105-110 | the loop from `i = 1`: no rows for a missing table, all rows but row 0 otherwise |
| Dom.Select | src/utils/attendance.ts:110-128 | a filtering `for` loop that pushes produces at most one record per row |
| Dom.SelectConcat | src/utils/attendance.ts:110-128 | parsing two pieces of rows gives the records of the first followed by those of the second (row order) |
| Dom.SelectCons | src/utils/attendance.ts:110-128 | the first row's record, if kept, comes before all others |
| Dom.SelectMembers | src/utils/attendance.ts:114-126 | a record is produced exactly by some kept row, mapped by the record function |
| Dom.SelectLength | src/utils/attendance.ts:114-126 | the number of records equals the number of kept rows |
| Dom.SelectSnoc | src/utils/attendance.ts:110-128 | one loop step: the next row's record, if kept, is appended |
| Dom.UntilSentinel | src/utils/attendance.ts:356-367 | the rows before the first stop row: a prefix that holds no stop row and ends at one or at the end |
| Dom.UntilSentinelConcat | src/utils/attendance.ts:356-367 | reading two pieces up to the sentinel continues into the second piece only if the first holds no sentinel |
| Dom.UntilSentinelAt | src/utils/attendance.ts:361-366 | once the sentinel is at index `i`, the rows from `i` on are never read |
| Dom.SentinelMembers | src/utils/attendance.ts:356-383 | a record of a sentinel-stopped loop comes exactly from a kept row with no sentinel before it |
| Dom.AfterHeaderMembers | src/utils/attendance.ts:110-126 | a record comes exactly from a kept row at index 1 or later |
| Dom.NoStopPrefix | src/utils/attendance.ts:356-367 | rows with no sentinel are all read |
| Dom.AfterHeaderSnoc | src/utils/attendance.ts:110-128 | a new last row adds its record, if kept, after the others |
| Dom.SkipInertRow | src/utils/attendance.ts:361-369 | a row that is neither the sentinel nor kept can be removed without changing the records |
| Tokens.ExtractPayload | src/context/AuthContext.tsx:113-120 | each of the four fields is the landing page's input value when that is non-empty, and `""` when the input is missing |
| Tokens.ExtractRendered | src/context/AuthContext.tsx:113-120 | extracting the payload from a page that renders `p` gives `p` back |
| Forms.FormData.Append | src/context/AuthContext.tsx:66-82 | `append` adds the pair at the end; `get` of a name is unchanged if the name was present, otherwise the new value for the new key |
| Attendance.Prologue | src/utils/attendance.ts:63-69 | the shared first six fields: the three tokens verbatim, then the student id; no view button and no date field yet |
| Attendance.TodayAttendanceForm | src/utils/attendance.ts:63-74 | echoes the tokens and student id, presses only the today button, and leaves all four date fields empty |
| Attendance.MonthlyAttendanceForm | src/utils/attendance.ts:142-153 | echoes the tokens and student id, presses only the monthly button, and leaves all four date fields empty |
| Attendance.SubjectWiseAttendanceForm | src/utils/attendance.ts:226-237 | echoes the tokens, presses only `btnShowSubject`, puts the range in `txtDFrom`/`txtDTo` and leaves `txtFrom`/`txtTo` empty |
| Attendance.DateWiseAttendanceForm | src/utils/attendance.ts:310-321 | echoes the tokens, presses only `btnShowAtt`, puts the range in `txtFrom`/`txtTo` and leaves `txtDFrom`/`txtDTo` empty |
| Attendance.SemesterAttendanceForm | src/utils/attendance.ts:397-408 | echoes the tokens and student id, presses only the semester button, and leaves all four date fields empty |
| Attendance.TodayAttendance | src/utils/attendance.ts:101-132 | a missing table gives `[]`; row 0 never yields a record |
| Attendance.TodayAttendanceMembers | src/utils/attendance.ts:110-126 | a record comes exactly from a row at index ≥ 1 with at least 8 cells, its fields the trimmed cells 0-7 |
| Attendance.TodayAttendanceInRowOrder | src/utils/attendance.ts:110-128 | records keep row order: a new last row appends its record |
| Attendance.ParseTodayAttendance | src/utils/attendance.ts:100-135 | the parsing loop computes `TodayAttendance` |
| Attendance.FetchAttendanceData | src/utils/attendance.ts:59-136 | posts the today form; a non-ok status fails with that status; otherwise gives the records of `#MCPH1_SCPH_gvDailyAttendence1` |
| Attendance.MonthlyAttendance | src/utils/attendance.ts:179-211 | a missing table gives `[]`; row 0 never yields a record |
| Attendance.MonthlyAttendanceMembers | src/utils/attendance.ts:188-206 | a record comes exactly from a row at index ≥ 1 with at least 6 cells |
| Attendance.MonthlyAttendanceInRowOrder | src/utils/attendance.ts:188-208 | records keep row order |
| Attendance.MonthlyPercentageFromSpan | src/utils/attendance.ts:193-204 | the percentage is cell 5's span text, or `""` without a span; the cell's own text is never used |
| Attendance.ParseMonthlyAttendance | src/utils/attendance.ts:178-214 | the parsing loop computes `MonthlyAttendance` |
| Attendance.FetchMonthlyAttendanceData | src/utils/attendance.ts:138-215 | posts the monthly form; a non-ok status fails; otherwise gives the records of `#MCPH1_SCPH_gvMonthly` |
| Attendance.SubjectWiseAttendance | src/utils/attendance.ts:263-295 | a missing table gives `[]`; row 0 never yields a record |
| Attendance.SubjectWiseAttendanceMembers | src/utils/attendance.ts:272-290 | a record comes exactly from a row at index ≥ 1 with at least 6 cells |
| Attendance.SubjectWiseAttendanceInRowOrder | src/utils/attendance.ts:272-292 | records keep row order |
| Attendance.SubjectWisePercentageFromSpan | src/utils/attendance.ts:277-288 | the percentage is cell 5's span text, or `""`; the cell's own text is never used |
| Attendance.ParseSubjectWiseAttendance | src/utils/attendance.ts:262-298 | the parsing loop computes `SubjectWiseAttendance` |
| Attendance.FetchSubjectWiseAttendanceData | src/utils/attendance.ts:217-299 | posts the subject-wise form with the range; a non-ok status fails; otherwise gives the records of `#MCPH1_SCPH_GVSubject` |
| Attendance.SemesterAttendance | src/utils/attendance.ts:434-465 | a missing table gives `[]`; row 0 never yields a record |
| Attendance.SemesterAttendanceMembers | src/utils/attendance.ts:443-460 | a record comes exactly from a row at index ≥ 1 with at least 5 cells |
| Attendance.SemesterAttendanceInRowOrder | src/utils/attendance.ts:443-462 | records keep row order |
| Attendance.SemesterPercentageFromSpan | src/utils/attendance.ts:448-457 | the percentage is cell 4's span text, or `""`; the cell's own text is never used |
| Attendance.ParseSemesterAttendance | src/utils/attendance.ts:433-468 | the parsing loop computes `SemesterAttendance` |
| Attendance.FetchSemesterAttendanceData | src/utils/attendance.ts:393-469 | posts the semester form; a non-ok status fails; otherwise gives the records of `#MCPH1_SCPH_gvAttendanceDetail` |
| Attendance.DateWiseAttendance | src/utils/attendance.ts:347-387 | a missing table gives `[]`; row 0 never yields a record |
| Attendance.DateWiseAttendanceMembers | src/utils/attendance.ts:356-382 | a record comes exactly from a row at index ≥ 1 with at least 9 cells and no "No Record Found" row between the header and it |
| Attendance.DateWiseStopsAtSentinel | src/utils/attendance.ts:361-366 | the rows from the first "No Record Found" row on contribute nothing |
| Attendance.DateWiseSkipsRow | src/utils/attendance.ts:361-369 | any other narrow row, including every other one-cell row, is skipped without effect |
| Attendance.ParseDateWiseAttendance | src/utils/attendance.ts:346-390 | the loop with its `break` computes `DateWiseAttendance` |
| Attendance.FetchDateWiseAttendanceData | src/utils/attendance.ts:301-391 | posts the date-wise form with the range; a non-ok status fails; otherwise gives the records of `#MCPH1_SCPH_gvDateWise` |
| Timetable.PageTokens | src/utils/timetable.ts:38-41 | the page's own tokens (`""` when missing), and the student id falls back to the payload's when the page's is missing or empty |
| Timetable.TodayTimetableForm | src/utils/timetable.ts:46-53 | echoes the page tokens and student id, presses only `Button2=Today` |
| Timetable.WeeklyTimetableForm | src/utils/timetable.ts:159-166 | echoes the page tokens and student id, presses only `Button1=Weekly` |
| Timetable.TodayWeeklyDifferInButtonOnly | src/utils/timetable.ts:46-53 | the two bodies have seven pairs, agree on the first six and differ only in the button |
| Timetable.TimetableEvents | src/utils/timetable.ts:79-83 | a missing table yields no events |
| Timetable.DayAfterSplit | src/utils/timetable.ts:87-102 | `currentDay` after two pieces of rows is the second's day started from the first's |
| Timetable.EventsFromSplit | src/utils/timetable.ts:87-124 | the events of two pieces are those of the first, then those of the second started from the day the first ends with |
| Timetable.DayAfterIsLastDay | src/utils/timetable.ts:98-101 | the carried day is the text of the last 7-cell row with a non-empty day cell, else the initial day |
| Timetable.EventsFromLength | src/utils/timetable.ts:94-123 | exactly one event per row of at least 6 cells |
| Timetable.EventAtRow | src/utils/timetable.ts:94-123 | the class row at index `i` gives the event at its rank among class rows, from its own span cells after the offset, with the last day seen up to and including it |
| Timetable.ShortRowInert | src/utils/timetable.ts:208-244 | a row with fewer than 6 cells adds no event and leaves the day unchanged |
| Timetable.NoDayYet | src/utils/timetable.ts:87-112 | with no 7-cell row, every event's day is the initial `""` |
| Timetable.DayCarriesForward | src/utils/timetable.ts:94-112 | rows [7 cells "Monday", 6 cells, 7 cells "Tuesday"] give days Monday, Monday, Tuesday |
| Timetable.EventsFromSnoc | src/utils/timetable.ts:90-123 | one loop step: the next row's event, if any, is appended with the updated day |
| Timetable.ParseTimetable | src/utils/timetable.ts:78-130 | the row loop with `currentDay` and `offset` computes `TimetableEvents` |
| Timetable.FetchTodayTimeTable | src/utils/timetable.ts:20-131 | GET the page then POST the today form; a failed step ends with its status; otherwise the events of `#MCPH1_SCPH_gvTimeTable` |
| Timetable.FetchWeeklyTimeTable | src/utils/timetable.ts:133-252 | the same steps with the weekly form, and the grid parsed the same way |
| Grades.SelectOptions | src/utils/grades.ts:57-68 | a missing `<select>` gives no options |
| Grades.SelectOptionsMembers | src/utils/grades.ts:61-66 | an option is offered exactly when its value (`""` if missing) is not `--Select--`, with its trimmed label |
| Grades.NoPlaceholderOffered | src/utils/grades.ts:64 | no offered option has the value `--Select--` |
| Grades.SelectOptionsInOrder | src/utils/grades.ts:61-67 | options keep document order |
| Grades.CollectOptions | src/utils/grades.ts:59-68 | the `forEach` computes `SelectOptions` |
| Grades.UpdatedPayload | src/utils/grades.ts:85-95 | each field is the document's value when non-empty, else the input payload's |
| Grades.UpdatedPayloadWithoutInputs | src/utils/grades.ts:85-95 | with none of the four inputs, the payload is unchanged |
| Grades.UpdatedPayloadIdempotent | src/utils/grades.ts:85-95 | updating twice from the same page is updating once |
| Grades.FetchSemestersAndExams | src/utils/grades.ts:33-101 | GET the exam page; a non-ok status fails; otherwise semesters, exams and the updated payload |
| Grades.GradesForm | src/utils/grades.ts:111-122 | echoes the three tokens, `__VIEWSTATEENCRYPTED=""`, the student id, `ddldrp` = the semester, `ddlExamName=All`, `btnRun=Show` |
| Grades.GradeRecords | src/utils/grades.ts:150-193 | a missing table gives `[]`; at most one record per row |
| Grades.GradeRecordsMembers | src/utils/grades.ts:159-188 | a record comes exactly from a row, from index 0, with at least 10 cells and no "No Record"/"No Data" row before it |
| Grades.FirstRowIsData | src/utils/grades.ts:159 | there is no header skip: a wide row 0 gives the first record |
| Grades.GradeRecordsStopAtSentinel | src/utils/grades.ts:164-170 | a one-cell row whose text contains "No Record" or "No Data" halts parsing |
| Grades.NarrowRowSkipped | src/utils/grades.ts:173 | a non-sentinel row under 10 cells, such as a 6-cell row, adds nothing |
| Grades.ParseGradeRecords | src/utils/grades.ts:147-189 | the loop with its `break` computes `GradeRecords` |
| Grades.FetchGradesData | src/utils/grades.ts:103-197 | posts the grades form; a non-ok status fails; otherwise the records of `#MCPH1_SCPH_gvmarksdetails` |
| Profile.GetText | src/utils/profile.ts:129-132 | a missing element gives `""`, otherwise its trimmed text |
| Profile.GetAttr | src/utils/profile.ts:135-138 | a missing element or attribute gives `""`, otherwise the attribute's value |
| Profile.BlankProfile | src/utils/profile.ts:141-181 | a page with none of the profile elements gives a profile of empty strings |
| Profile.ProfileReadsOnly | src/utils/profile.ts:141-181 | the profile depends only on the elements it names |
| Profile.FetchProfileData | src/utils/profile.ts:108-186 | GET `/Student/Course`; a non-ok status fails; otherwise the profile |
| Profile.BlankOfficialDetails | src/utils/profile.ts:215-253 | a page with none of the official elements gives empty strings |
| Profile.OfficialDetailsReadOnly | src/utils/profile.ts:215-253 | the official details depend only on the elements they name |
| Profile.FetchOfficialDetailsData | src/utils/profile.ts:188-258 | GET `/Student/StudentOfficial`; a non-ok status fails; otherwise the details |
| Profile.QualificationTokensOf | src/utils/profile.ts:280-285 | each of the five tokens is the page's own non-empty value, or `""`; `txtAdmNo` is the page's value, falling back to the payload's student id |
| Profile.QualificationForm | src/utils/profile.ts:296-306 | echoes the tokens, `hdnstdid` and `txtadmno` verbatim and presses `btnsearchs` |
| Profile.QualificationFormEchoesPage | src/utils/profile.ts:280-306 | each token input the page carries with a non-empty value reaches the qualification body unchanged |
| Profile.QualificationFormAdmNoFallback | src/utils/profile.ts:285-305 | without an admission number on the page, the body's `txtadmno` is the caller's student id |
| Profile.Qualifications | src/utils/profile.ts:348-386 | a missing table gives `[]`; row 0 never yields a record |
| Profile.QualificationDataOf | src/utils/profile.ts:337-349 | all six header labels are read whether or not the table exists; the list is the table's qualifications, `[]` when it is missing |
| Profile.QualificationsMembers | src/utils/profile.ts:353-383 | a record comes exactly from a row at index ≥ 1 with at least 10 cells and a non-empty cell 1 |
| Profile.QualificationsNamed | src/utils/profile.ts:369-371 | every returned qualification has a non-empty `qualification` |
| Profile.QualificationsInRowOrder | src/utils/profile.ts:353-385 | records keep row order |
| Profile.ParseQualificationData | src/utils/profile.ts:337-386 | the loop computes `QualificationDataOf` |
| Profile.FetchQualificationData | src/utils/profile.ts:260-391 | GET then POST the qualification form; a failed step ends with its status |
| Alerts.GrdAltRows | src/utils/alerts.ts:66 | only `GrdAltRow` rows are considered, never more than the table has |
| Alerts.OnlyAltRowsSelected | src/utils/alerts.ts:66 | every selected row has class `GrdAltRow` |
| Alerts.AlertDate | src/utils/alerts.ts:91-94 | `lblUpdate` whenever it exists, even if empty; else `lblReadMessege`; else `""` |
| Alerts.AlertsOf | src/utils/alerts.ts:60-112 | a null table gives `[]`; at most one alert per `GrdAltRow` row |
| Alerts.AlertsMembers | src/utils/alerts.ts:68-106 | an alert comes exactly from a `GrdAltRow` row whose id, title, heading and description are all non-empty |
| Alerts.AlertsComplete | src/utils/alerts.ts:97 | every alert has all four required fields |
| Alerts.AlertsInRowOrder | src/utils/alerts.ts:68-110 | alerts keep row order |
| Alerts.ParseAlertsTable | src/utils/alerts.ts:60-113 | the `forEach` computes `AlertsOf` |
| Alerts.FetchAlertsData | src/utils/alerts.ts:20-55 | GET the page; a non-ok status fails; otherwise the unread and read tables are parsed |
| Alerts.UnreadIndependentOfRead | src/utils/alerts.ts:40-45 | the unread list does not depend on the read table |
| Api.ApiBaseUrl | src/config/api.ts:11-15 | `VITE_API_BASE_URL` when non-empty, else `/api/glbajaj` in dev and the production URL otherwise |
| Api.CleanEndpoint | src/config/api.ts:29 | exactly one leading `/` is removed when present |
| Api.TrimmedBase | src/config/api.ts:32 | exactly one trailing `/` is removed when present |
| Api.GetApiUrl | src/config/api.ts:27-35 | the trimmed base, `/`, then the cleaned endpoint, and nothing else |
| Api.LeadingSlashIrrelevant | src/config/api.ts:29 | `getApiUrl("/X") == getApiUrl("X")` |
| Api.OnlyOneSlashStripped | src/config/api.ts:29-34 | `getApiUrl("//X")` ends in `//X` |
| Api.EmptyEndpoint | src/config/api.ts:29-34 | `getApiUrl("")` is the trimmed base followed by `/` |
| Api.SingleSlashAtJoin | src/config/api.ts:27-35 | unless the base ends in `//` or the endpoint starts with `//`, there is a single `/` at the join |
| Api.DevLoginUrl | src/config/api.ts:11-35 | in dev without `VITE_API_BASE_URL`, `getApiUrl("/Login")` is `/api/glbajaj/Login` |
| LoginPage.CaptchaPageUrl | src/pages/Login.tsx:29 | `getApiUrl("/Login") + "?_=" + t`, the suffix reading back as `t` |
| LoginPage.FullCaptchaUrl | src/pages/Login.tsx:38 | a `src` starting with `http` is used verbatim; otherwise the trimmed base, `//`, then `src` |
| LoginPage.CacheBusted | src/pages/Login.tsx:40-42 | appends `&_=` when the URL has a `?`, `?_=` otherwise, then `t` in decimal |
| LoginPage.CacheBustedHasQuery | src/pages/Login.tsx:40-42 | a cache-busted URL always holds a `?` |
| LoginPage.NextCaptchaUrl | src/pages/Login.tsx:33-45 | no image or empty `src` leaves the URL as it was; otherwise the full URL, then `&` if it already has a `?` and `?` if not, then `_=` and the digits of `t` |
| LoginPage.NoImageKeepsInitialUrl | src/pages/Login.tsx:14-45 | a missing `#Image1` or `src` leaves `captchaUrl` at its initial `""` |
| LoginPage.RelativeSourceUnderBase | src/pages/Login.tsx:38 | a relative `src` ends up under the base followed by `//` |
| TimetablePage.DigitRun | src/pages/TimeTable.tsx:49 | the `\d+` run at an index: all digits, and maximal |
| TimetablePage.PeriodAtSlot | src/pages/TimeTable.tsx:49-50 | `(P`, digits and `)` form a match whose value is `parseInt` of the digits |
| TimetablePage.NoMatchInPrefix | src/pages/TimeTable.tsx:49 | no match starts inside text without `(` |
| TimetablePage.FirstMatchIsPeriod | src/pages/TimeTable.tsx:48-51 | the leftmost match gives the period number |
| TimetablePage.PeriodFromReaches | src/pages/TimeTable.tsx:48-51 | the scan passes over non-matching positions to the first match |
| TimetablePage.NoMatchIsZero | src/pages/TimeTable.tsx:50 | no match gives 0 |
| TimetablePage.NoMatchFrom | src/pages/TimeTable.tsx:50 | no match from an index on gives 0 |
| TimetablePage.DigitRunOf | src/pages/TimeTable.tsx:49 | a digit run ended by a non-digit has that length |
| TimetablePage.PeriodRoundTrip | src/pages/TimeTable.tsx:48-51 | `(P<n>)` after text without `(` reads back as `n`, whatever follows |
| TimetablePage.EventType | src/pages/TimeTable.tsx:59-63 | the label is one of Practical, Non-Credit, Lecture |
| TimetablePage.EventTypeByOccurrence | src/pages/TimeTable.tsx:59-63 | Practical exactly when `55` occurs; Non-Credit exactly when `55` does not and `BNC` does; Lecture otherwise |
| TimetablePage.InsertBy | src/pages/TimeTable.tsx:54-56 | one insertion step adds one element |
| TimetablePage.SortBy | src/pages/TimeTable.tsx:54-56 | the stable sort keeps the length |
| TimetablePage.InsertPermutes | src/pages/TimeTable.tsx:54-56 | insertion adds exactly the element to the multiset |
| TimetablePage.InsertMembers | src/pages/TimeTable.tsx:54-56 | members after insertion are the element and the old members |
| TimetablePage.InsertSorted | src/pages/TimeTable.tsx:54-56 | insertion keeps a list sorted by key |
| TimetablePage.SortPermutes | src/pages/TimeTable.tsx:54-56 | the sort is a permutation |
| TimetablePage.SortSorted | src/pages/TimeTable.tsx:54-56 | the sort's result is sorted by key |
| TimetablePage.WithKeyCons | src/pages/TimeTable.tsx:54-56 | the elements of one key of a list with a new head |
| TimetablePage.WithKeyNone | src/pages/TimeTable.tsx:54-56 | a list without a key has no elements of it |
| TimetablePage.InsertFrontStable | src/pages/TimeTable.tsx:54-56 | inserting in front of larger keys keeps each key's order |
| TimetablePage.InsertBehindStable | src/pages/TimeTable.tsx:54-56 | inserting behind a head keeps each key's order |
| TimetablePage.InsertStable | src/pages/TimeTable.tsx:54-56 | insertion places the element after the earlier elements of its key |
| TimetablePage.SortStable | src/pages/TimeTable.tsx:54-56 | the sort keeps the relative order of equal keys |
| TimetablePage.SortByPeriod | src/pages/TimeTable.tsx:54-56 | a permutation of the input with period numbers non-decreasing |
| TimetablePage.SortByPeriodStable | src/pages/TimeTable.tsx:54-56 | events with the same period keep their input order |
| TimetablePage.SortedTodaySchedule | src/pages/TimeTable.tsx:53-57 | no data gives `[]`; otherwise a permutation of the copy sorted by period |
| TimetablePage.DaysOfMembers | src/pages/TimeTable.tsx:67-72 | the days are exactly those of some event |
| TimetablePage.OnDayOnlyThatDay | src/pages/TimeTable.tsx:67-72 | a day's list only holds input events of that day |
| TimetablePage.OnDayCount | src/pages/TimeTable.tsx:67-72 | an event occurs in its day's list as often as in the input |
| TimetablePage.GroupedExactlyOnce | src/pages/TimeTable.tsx:65-80 | every event is grouped under its own day, as often as it occurs, and under no other day |
| TimetablePage.GroupedDays | src/pages/TimeTable.tsx:65-80 | the keys are exactly the days of the events |
| TimetablePage.GroupingStep | src/pages/TimeTable.tsx:67-72 | pushing one event under its day extends the grouping of the prefix |
| TimetablePage.SortingStep | src/pages/TimeTable.tsx:75-77 | sorting one more day's list keeps the other days as they are |
| TimetablePage.SortedAll | src/pages/TimeTable.tsx:65-80 | once every list is sorted, the result is `GroupedByDay` |
| TimetablePage.GroupByDay | src/pages/TimeTable.tsx:65-80 | the two loops compute `GroupedByDay`: each day's events in input order, sorted by period |
| TimetablePage.WeeklyByDay | src/pages/TimeTable.tsx:82 | no data gives `{}`; otherwise the grouping of the weekly schedule |
| Auth.SendAll | src/context/AuthContext.tsx:44-105 | one send effect per request |
| Auth.SendAllSnoc | src/context/AuthContext.tsx:44-105 | sending one more request appends its effect |
| Auth.OnlyTrueAuthenticates | src/context/AuthContext.tsx:24-27 | the restored flag is set exactly when `isAuthenticated` holds the text `"true"`; any other entry or none reads as signed out |
| Auth.ClearedStorageSignedOut | src/context/AuthContext.tsx:24-31 | a reload after storage was cleared, as a failed login or a logout leaves it, shows no session and no payload |
| Auth.InitialPayload | src/context/AuthContext.tsx:28-31 | the stored payload, and `null` when none is stored |
| Auth.SignedInStorageRestores | src/context/AuthContext.tsx:24-31 | reloading after a login restores the signed-in state and its payload |
| Auth.CaptchaKey | src/context/AuthContext.tsx:55-56 | the name of the first input of `#pnlInfo1`, `""` when there is none |
| Auth.LoginFormFields | src/context/AuthContext.tsx:51-82 | sixteen pairs: the three tokens verbatim, the username under `__txtUserId100` and `zx1234`, the password, and the captcha under its key |
| Auth.LogoutFormTokens | src/context/AuthContext.tsx:145-169 | the event target is `ctl00$btnLogOut`; the home page's tokens are echoed; no student id is sent |
| Auth.LogoutFormHiddenFields | src/context/AuthContext.tsx:151-176 | each of the seven hidden fields is sent back under its own name with the page's value |
| Auth.CookieNameShape | src/context/AuthContext.tsx:207 | a cookie's name holds no `=` and is already trimmed |
| Auth.ExpireAll | src/context/AuthContext.tsx:206-212 | three assignments per `;`-separated piece |
| Auth.ExpireAllSnoc | src/context/AuthContext.tsx:206-212 | one more piece appends its three assignments |
| Auth.ExpireAllAt | src/context/AuthContext.tsx:206-212 | piece `k`'s name receives its three expiring assignments at positions `3k`-`3k+2` |
| Auth.EmptyCookieHeader | src/context/AuthContext.tsx:206-212 | an empty `document.cookie` still expires one cookie, with the empty name |
| Auth.ExpireCookies | src/context/AuthContext.tsx:206-212 | the `forEach` computes `ExpireAll` of the pieces |
| Auth.LoginRequestsOrder | src/context/AuthContext.tsx:44-107 | the login page first; the POST only once it arrived; the attendance page only after an ok answer; a successful login sends all three |
| Auth.LogoutRequestsOrder | src/context/AuthContext.tsx:137-200 | the home page first; the POST once it arrived; the redirect at most once, only for 302 or 303 with a non-empty `Location` |
| Auth.AuthSession.constructor | src/context/AuthContext.tsx:24-31 | the provider's initial state from storage, which is then persisted-consistent |
| Auth.AuthSession.FetchAll | src/context/AuthContext.tsx:44-107 | logs the requests in order and changes nothing else |
| Auth.AuthSession.ExpireCookieLog | src/context/AuthContext.tsx:206-212 | logs the cookie assignments and changes nothing else |
| Auth.AuthSession.ClearClientState | src/context/AuthContext.tsx:37-40 | empties the cache, `localStorage` and `sessionStorage`, logged in that order |
| Auth.AuthSession.SignIn | src/context/AuthContext.tsx:122-127 | sets the payload and the flag and persists both |
| Auth.AuthSession.SignOut | src/context/AuthContext.tsx:218-219 | unauthenticated, payload `null` |
| Auth.AuthSession.Login | src/context/AuthContext.tsx:33-132 | clears all storage before any request; on success the landing page's payload, authenticated, both persisted; on any failure neither setter runs and storage stays cleared |
| Auth.AuthSession.Logout | src/context/AuthContext.tsx:134-222 | sends the logout requests, expires every cookie, clears all storage, and always ends unauthenticated with payload `null`, whatever the network did |
| Text.ContainsIsOccurrence | src/pages/TimeTable.tsx:60-61 | `includes` holds exactly when the part occurs at some index |
| Text.TrimShape | src/context/AuthContext.tsx:207 | `trim` returns a slice with no trimmable character at either end |
| Text.TrimIdempotent | src/context/AuthContext.tsx:207 | trimming twice is trimming once |
| Text.Split | src/context/AuthContext.tsx:206 | `split(";")` gives at least one piece, none holding `;`, and `[s]` without `;` |
| Text.JoinSplit | src/context/AuthContext.tsx:206 | joining the pieces gives the cookie string back |
| Text.BeforeFirst | src/context/AuthContext.tsx:207 | `split("=")[0]`: a prefix without `=`, all of the text or ending just before the first `=` |
| Text.NatToDecimal | src/pages/Login.tsx:29 | a number renders as one or more decimal digits |
| Text.DecimalRoundTrip | src/pages/TimeTable.tsx:50 | `parseInt` of a rendered number gives the number |

## Left out

- HTML parsing, `querySelector`, `textContent` and `trim` on page text: a page arrives already parsed as tables, cells with trimmed text and optional span text, and input maps.
- `fetch`, `response.ok`, `await`, redirects, credentials: a fetch is a parameter. A `Response` carries a status and a parsed body, and a `None` is a fetch that threw. The requests sent are returned or logged, so their order can be stated. `Request` endpoints are relative to the API base, as passed to `getApiUrl`.
- `console.log` and `console.error`: logging only.
- Browser storage, `document.cookie` and `queryClient`: fields of `Auth.AuthSession`. The effect log records clears, requests and cookie assignments in order. Cookie assignments are not interpreted.
- `JSON.parse` of a stored payload (src/context/AuthContext.tsx:29): a stored entry is either a flag text or a saved payload. An entry that is not a saved payload is modelled as `null`. The source returns any other valid JSON value as is, and throws on malformed JSON; neither is modelled.
- React state, `setCaptchaUrl`/`setLoading`, React Query scheduling and any concurrency between fetches: not modelled. `Date.now()` is a parameter.
- The per-row `try`/`catch` in `parseAlertsTable`: nothing in the modelled row can throw.
- `parseInt` is modelled on unbounded naturals. Precision loss on very long digit runs is not modelled.
- `Object.keys` order of the grouping: the grouping is a `map`, so the order of days is not modelled; each day's list order is.
- `TimetablePage.SortByPeriod`: modelled on values, because the source sorts a fresh copy (`[...list]`). In `groupByDay` each day's list is sorted in place, which the map update models without aliasing.
- `Auth.AuthSession.Login`: a failed login leaves the in-memory `isAuthenticated` and `payloadData` as they were, while storage stays cleared. This follows the code: the code never calls the setters on that path. Only the success path sets them (src/context/AuthContext.tsx:122-127); a non-ok answer throws before it (src/context/AuthContext.tsx:100-102).
- `Auth.AuthSession.Logout`: the setters run between `queryClient.clear()` and `localStorage.clear()`. The model runs them after all three clears; they touch no storage, so the final state and the log are the same.
- The doc comment of `getApiUrl` (src/config/api.ts:22-25) names a different production host than the code. The model follows the code (lines 11-13).
- The JSX of the pages, `src/stores/grades-store.ts` and `vite.config.ts`: presentation, persistence wrapper and dev-proxy configuration are not part of this model.
