/**
 * `/Student/TimeTable`: the today and weekly postbacks and the parser of the
 * timetable grid, whose rows carry the day only on the first row of each day.
 */
module Timetable {
  import opened Wrappers
  import opened Dom
  import opened Tokens
  import opened Forms
  import opened Http

  datatype TimeTableEvent = TimeTableEvent(
    subjectCode: string, subject: string, faculty: string, group: string,
    timeSlot: string, hall: string, day: string)

  const TimetableEndpoint := "/Student/TimeTable"
  const TimetableTableId := "MCPH1_SCPH_gvTimeTable"
  const TodayButton := "ctl00$ctl00$MCPH1$SCPH$Button2"
  const WeeklyButton := "ctl00$ctl00$MCPH1$SCPH$Button1"

  // ---------------------------------------------------------------------
  // Postback bodies

  /**
   * The tokens of the freshly loaded timetable page. The state tokens are the
   * page's own (`""` when missing); the student id falls back to the
   * caller's payload when the page has none or an empty one.
   */
  function PageTokens(page: Inputs, payload: PayloadData): (t: PayloadData)
    ensures t.viewState == Value(page, ViewStateField)
    ensures t.viewStateGenerator == Value(page, ViewStateGeneratorField)
    ensures t.eventValidation == Value(page, EventValidationField)
    ensures StudentIdField in page && page[StudentIdField] != "" ==> t.hdnStudentId == page[StudentIdField]
    ensures !(StudentIdField in page && page[StudentIdField] != "") ==> t.hdnStudentId == payload.hdnStudentId
  {
    ExtractPayload(page).(hdnStudentId := ValueOr(page, StudentIdField, payload.hdnStudentId))
  }

  function TodayTimetableForm(page: Inputs, payload: PayloadData): (body: FormData)
    ensures body.EchoesTokens(PageTokens(page, payload))
    ensures body.Get(StudentIdField) == Some(PageTokens(page, payload).hdnStudentId)
    ensures body.Get(TodayButton) == Some("Today") && body.Get(WeeklyButton) == None
  {
    var t := PageTokens(page, payload);
    EmptyForm
      .Append(ViewStateField, t.viewState)
      .Append(ViewStateGeneratorField, t.viewStateGenerator)
      .Append(EventValidationField, t.eventValidation)
      .Append(SchoolMasterField, "0")
      .Append(CaseCssField, "textDefault")
      .Append(StudentIdField, t.hdnStudentId)
      .Append(TodayButton, "Today")
  }

  function WeeklyTimetableForm(page: Inputs, payload: PayloadData): (body: FormData)
    ensures body.EchoesTokens(PageTokens(page, payload))
    ensures body.Get(StudentIdField) == Some(PageTokens(page, payload).hdnStudentId)
    ensures body.Get(WeeklyButton) == Some("Weekly") && body.Get(TodayButton) == None
  {
    var t := PageTokens(page, payload);
    EmptyForm
      .Append(ViewStateField, t.viewState)
      .Append(ViewStateGeneratorField, t.viewStateGenerator)
      .Append(EventValidationField, t.eventValidation)
      .Append(SchoolMasterField, "0")
      .Append(CaseCssField, "textDefault")
      .Append(StudentIdField, t.hdnStudentId)
      .Append(WeeklyButton, "Weekly")
  }

  /** The two bodies agree on their first six pairs and differ only in the last one. */
  lemma TodayWeeklyDifferInButtonOnly(page: Inputs, payload: PayloadData)
    ensures var today := TodayTimetableForm(page, payload).Pairs();
            var weekly := WeeklyTimetableForm(page, payload).Pairs();
            |today| == |weekly| == 7 && today[..6] == weekly[..6]
            && today[6] == (TodayButton, "Today") && weekly[6] == (WeeklyButton, "Weekly")
  {
    var today := TodayTimetableForm(page, payload);
    var weekly := WeeklyTimetableForm(page, payload);
    assert today.before == weekly.before;
    assert today.Pairs() == today.before.Pairs() + [(TodayButton, "Today")];
    assert weekly.Pairs() == weekly.before.Pairs() + [(WeeklyButton, "Weekly")];
  }

  // ---------------------------------------------------------------------
  // The grid

  /** Rows with at least six cells hold a class. */
  predicate IsEventRow(row: Row) {
    |row| >= 6
  }

  /** A seven-cell row starts with the day column; its class cells follow it. */
  function Offset(row: Row): nat {
    if |row| == 7 then 1 else 0
  }

  /** `currentDay` after the row: a seven-cell row with a non-empty day cell sets it. */
  function NextDay(day: string, row: Row): string {
    if |row| == 7 && CellText(row, 0) != "" then CellText(row, 0) else day
  }

  /** The event of a class row; each field is the span text of a cell after the offset. */
  function EventOf(row: Row, day: string): TimeTableEvent {
    var off := Offset(row);
    TimeTableEvent(SpanText(row, off), SpanText(row, off + 1), SpanText(row, off + 2),
                   SpanText(row, off + 3), SpanText(row, off + 4), SpanText(row, off + 5), day)
  }

  /** The events of `rows` when `currentDay` is `day` before the first of them. */
  function EventsFrom(rows: seq<Row>, day: string): seq<TimeTableEvent> {
    if rows == [] then []
    else
      var d := NextDay(day, rows[0]);
      (if IsEventRow(rows[0]) then [EventOf(rows[0], d)] else []) + EventsFrom(rows[1..], d)
  }

  /** `currentDay` after `rows`. */
  function DayAfter(rows: seq<Row>, day: string): string {
    if rows == [] then day else DayAfter(rows[1..], NextDay(day, rows[0]))
  }

  /** An independent statement of the day: the text of the last seven-cell row with a non-empty day cell. */
  function LastDayText(rows: seq<Row>, day: string): string {
    if rows == [] then day
    else
      var last := rows[|rows| - 1];
      if |last| == 7 && CellText(last, 0) != "" then CellText(last, 0)
      else LastDayText(rows[..|rows| - 1], day)
  }

  /** The events of the timetable table: `currentDay` starts as `""` below the header. */
  function TimetableEvents(table: Table): (events: seq<TimeTableEvent>)
    ensures table.None? ==> events == []
  {
    EventsFrom(AfterHeader(table), "")
  }

  /** `currentDay` after two pieces is `currentDay` after the second, started from the first's. */
  lemma {:induction false} DayAfterSplit(a: seq<Row>, b: seq<Row>, day: string)
    ensures DayAfter(a + b, day) == DayAfter(b, DayAfter(a, day))
    decreases |a|
  {
    if a == [] {
      assert a + b == b;
    } else {
      assert (a + b)[0] == a[0];
      assert (a + b)[1..] == a[1..] + b;
      DayAfterSplit(a[1..], b, NextDay(day, a[0]));
    }
  }

  /** Parsing a table in two pieces: the second starts from the day the first ends with. */
  lemma {:induction false} EventsFromSplit(a: seq<Row>, b: seq<Row>, day: string)
    ensures EventsFrom(a + b, day) == EventsFrom(a, day) + EventsFrom(b, DayAfter(a, day))
    decreases |a|
  {
    if a == [] {
      assert a + b == b;
    } else {
      var d := NextDay(day, a[0]);
      var head := if IsEventRow(a[0]) then [EventOf(a[0], d)] else [];
      assert (a + b)[0] == a[0];
      assert (a + b)[1..] == a[1..] + b;
      EventsFromSplit(a[1..], b, d);
      var x, y, z := head, EventsFrom(a[1..], d), EventsFrom(b, DayAfter(a[1..], d));
      calc {
        EventsFrom(a + b, day);
        x + EventsFrom(a[1..] + b, d);
        x + (y + z);
        { assert x + (y + z) == (x + y) + z; }
        (x + y) + z;
      }
    }
  }

  /** The carried day is the last day cell seen. */
  lemma {:induction false} DayAfterIsLastDay(rows: seq<Row>, day: string)
    ensures DayAfter(rows, day) == LastDayText(rows, day)
    decreases |rows|
  {
    if rows != [] {
      var init := rows[..|rows| - 1];
      var last := rows[|rows| - 1];
      assert rows == init + [last];
      DayAfterSplit(init, [last], day);
      DayAfterIsLastDay(init, day);
      assert [last][1..] == [];
    }
  }

  /** One event per class row. */
  lemma {:induction false} EventsFromLength(rows: seq<Row>, day: string)
    ensures |EventsFrom(rows, day)| == CountKept(rows, IsEventRow)
    decreases |rows|
  {
    if rows != [] {
      var init := rows[..|rows| - 1];
      var last := rows[|rows| - 1];
      assert rows == init + [last];
      EventsFromSplit(init, [last], day);
      EventsFromLength(init, day);
      assert [last][1..] == [];
    }
  }

  /**
   * The class row at index `i` gives the event at its rank among the class
   * rows, built from its own cells with the last day seen up to and
   * including it. With `EventsFromLength`, this fixes every event.
   */
  lemma EventAtRow(rows: seq<Row>, day: string, i: nat)
    requires i < |rows| && IsEventRow(rows[i])
    ensures CountKept(rows[..i], IsEventRow) < |EventsFrom(rows, day)|
    ensures EventsFrom(rows, day)[CountKept(rows[..i], IsEventRow)]
      == EventOf(rows[i], LastDayText(rows[..i + 1], day))
  {
    var before := rows[..i];
    assert rows == before + rows[i..];
    EventsFromSplit(before, rows[i..], day);
    EventsFromLength(before, day);
    var d := DayAfter(before, day);
    assert rows[i..][0] == rows[i];
    assert rows[..i + 1] == before + [rows[i]];
    DayAfterSplit(before, [rows[i]], day);
    assert [rows[i]][1..] == [];
    DayAfterIsLastDay(rows[..i + 1], day);
  }

  /** A row with fewer than six cells adds no event and leaves the day as it was. */
  lemma ShortRowInert(row: Row, rest: seq<Row>, day: string)
    requires |row| < 6
    ensures EventsFrom([row] + rest, day) == EventsFrom(rest, day)
    ensures DayAfter([row] + rest, day) == DayAfter(rest, day)
  {
    assert ([row] + rest)[1..] == rest;
  }

  /** Without any seven-cell row, every event has the initial day `""`. */
  lemma {:induction false} NoDayYet(rows: seq<Row>)
    requires forall j :: 0 <= j < |rows| ==> |rows[j]| != 7
    ensures forall e :: e in EventsFrom(rows, "") ==> e.day == ""
    decreases |rows|
  {
    if rows != [] {
      NoDayYet(rows[1..]);
    }
  }

  /** A day row, a six-cell row, then the next day's row: Monday, Monday, Tuesday. */
  lemma DayCarriesForward(monday: Row, next: Row, tuesday: Row)
    requires |monday| == 7 && CellText(monday, 0) == "Monday"
    requires |next| == 6
    requires |tuesday| == 7 && CellText(tuesday, 0) == "Tuesday"
    ensures var events := EventsFrom([monday, next, tuesday], "");
            |events| == 3 && events[0].day == "Monday" && events[1].day == "Monday"
            && events[2].day == "Tuesday"
  {
    assert [monday, next, tuesday][1..] == [next, tuesday];
    assert [next, tuesday][1..] == [tuesday];
    assert [tuesday][1..] == [];
    assert EventsFrom([tuesday], "Monday") == [EventOf(tuesday, "Tuesday")];
    assert EventsFrom([next, tuesday], "Monday") == [EventOf(next, "Monday"), EventOf(tuesday, "Tuesday")];
  }

  /** The loop's step: one more row at the end of the part parsed so far. */
  lemma EventsFromSnoc(rows: seq<Row>, k: nat, day: string)
    requires k < |rows|
    ensures var d := NextDay(DayAfter(rows[..k], day), rows[k]);
      EventsFrom(rows[..k + 1], day)
        == EventsFrom(rows[..k], day) + (if IsEventRow(rows[k]) then [EventOf(rows[k], d)] else [])
      && DayAfter(rows[..k + 1], day) == d
  {
    assert rows[..k + 1] == rows[..k] + [rows[k]];
    EventsFromSplit(rows[..k], [rows[k]], day);
    DayAfterSplit(rows[..k], [rows[k]], day);
    assert [rows[k]][1..] == [];
  }

  method ParseTimetable(table: Table) returns (events: seq<TimeTableEvent>)
    ensures events == TimetableEvents(table)
  {
    events := [];
    if table.Some? {
      var rows := table.value;
      ghost var body := AfterHeader(table);
      var currentDay := "";
      var i := 1;
      while i < |rows|
        invariant 1 <= i <= |body| + 1
        invariant events == EventsFrom(body[..i - 1], "")
        invariant currentDay == DayAfter(body[..i - 1], "")
      {
        var cells := rows[i];
        assert cells == body[i - 1];
        EventsFromSnoc(body, i - 1, "");
        if |cells| >= 6 {
          if |cells| == 7 {
            currentDay := if CellText(cells, 0) != "" then CellText(cells, 0) else currentDay;
          }
          events := events + [EventOf(cells, currentDay)];
        }
        i := i + 1;
      }
      assert body[..i - 1] == body;
    }
  }

  /**
   * `fetchTodayTimeTable`: load the page for fresh tokens, post the today
   * form, parse the grid. A failed step ends with that step's status.
   */
  method FetchTodayTimeTable(payload: PayloadData, pageResponse: Response<Inputs>, response: Response<Tables>)
    returns (requests: seq<Request>, result: Result<seq<TimeTableEvent>, int>)
    ensures !pageResponse.Ok() ==> requests == [Get(TimetableEndpoint)] && result == Failure(pageResponse.status)
    ensures pageResponse.Ok() ==>
      requests == [Get(TimetableEndpoint), Post(TimetableEndpoint, TodayTimetableForm(pageResponse.body, payload))]
    ensures pageResponse.Ok() && !response.Ok() ==> result == Failure(response.status)
    ensures pageResponse.Ok() && response.Ok() ==>
      result == Success(TimetableEvents(TableById(response.body, TimetableTableId)))
  {
    requests := [Get(TimetableEndpoint)];
    if !pageResponse.Ok() {
      return requests, Failure(pageResponse.status);
    }
    requests := requests + [Post(TimetableEndpoint, TodayTimetableForm(pageResponse.body, payload))];
    if !response.Ok() {
      return requests, Failure(response.status);
    }
    var events := ParseTimetable(TableById(response.body, TimetableTableId));
    result := Success(events);
  }

  /** `fetchWeeklyTimeTable`: the same steps with the weekly form; the grid is parsed the same way. */
  method FetchWeeklyTimeTable(payload: PayloadData, pageResponse: Response<Inputs>, response: Response<Tables>)
    returns (requests: seq<Request>, result: Result<seq<TimeTableEvent>, int>)
    ensures !pageResponse.Ok() ==> requests == [Get(TimetableEndpoint)] && result == Failure(pageResponse.status)
    ensures pageResponse.Ok() ==>
      requests == [Get(TimetableEndpoint), Post(TimetableEndpoint, WeeklyTimetableForm(pageResponse.body, payload))]
    ensures pageResponse.Ok() && !response.Ok() ==> result == Failure(response.status)
    ensures pageResponse.Ok() && response.Ok() ==>
      result == Success(TimetableEvents(TableById(response.body, TimetableTableId)))
  {
    requests := [Get(TimetableEndpoint)];
    if !pageResponse.Ok() {
      return requests, Failure(pageResponse.status);
    }
    requests := requests + [Post(TimetableEndpoint, WeeklyTimetableForm(pageResponse.body, payload))];
    if !response.Ok() {
      return requests, Failure(response.status);
    }
    var events := ParseTimetable(TableById(response.body, TimetableTableId));
    result := Success(events);
  }
}
